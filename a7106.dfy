/**
 * Host driver for the Amiccom A7106 2.4 GHz transceiver, bit-banged over
 * Raspberry Pi GPIO (server/a7106.py).
 *
 * The GPIO bus is a recorded `wire` of pin signals.  The level the chip
 * presents on IO1 at the n-th sample is the oracle `io1(n)`; it is the only
 * way register reads obtain data.  Above the wire, the ghost `frames` trace
 * records each chip-select frame as the bytes shifted out and in, and the
 * class invariant `Valid` ties the two together.
 */
module A7106 {
  import opened Wrappers
  import opened Bytes
  import opened Sequences

  type nibble = x: int | 0 <= x < 16

  datatype Pin = Cs | Ck | Da | Io1 | Io2

  /** One GPIO operation: an output level driven, or an input level sampled. */
  datatype Signal = Drive(pin: Pin, high: bool) | Sense(pin: Pin, high: bool)

  /** One chip-select frame: the bytes clocked out on DA and the bytes clocked in from IO1. */
  datatype Frame = Frame(tx: seq<byte>, rx: seq<byte>)

  datatype Error =
    | DataOutOfRange(value: int)
    | IdMismatch(read: nat, expected: uint32)
    | PacketLengthOutOfRange(length: int)
    | PacketTooLong(size: nat, maximum: int)
    | CrcError
    | FecError

  /** The four conditions `setup` prints as calibration errors (true = reported). */
  datatype CalibrationReport = CalibrationReport(
    unfinished: bool, ifFilterFailed: bool, vcoCurrentFailed: bool, vcoBankFailed: bool)

  // ---------------------------------------------------------------------------
  // Command bytes

  /** `write_reg`: the first byte of the frame is the bare register address. */
  function WriteCommand(address: byte): byte
  {
    address
  }

  /** `read_reg`: `address | (1 << 6)`. */
  function ReadCommand(address: byte): byte
  {
    address / 128 * 128 + 64 + address % 64
  }

  /** `strobe`: `command << 4`. */
  function StrobeCommand(command: nibble): byte
  {
    command * 16
  }

  /** How the chip reads the first byte of a frame: bit 7 marks a strobe, bit 6 a read. */
  datatype Command = Strobe(command: nat) | RegisterWrite(address: nat) | RegisterRead(address: nat)

  function Classify(b: byte): Command
  {
    if b >= 128 then Strobe(b / 16)
    else if b / 64 % 2 == 1 then RegisterRead(b % 64)
    else RegisterWrite(b % 64)
  }

  /** Every command byte the driver can send is read back as the operation that sent it. */
  lemma CommandEncodingsDecode(address: byte, command: nibble)
    requires address < 64 && command >= 8
    ensures Classify(WriteCommand(address)) == RegisterWrite(address)
    ensures Classify(ReadCommand(address)) == RegisterRead(address)
    ensures Classify(StrobeCommand(command)) == Strobe(command)
  {
  }

  // ---------------------------------------------------------------------------
  // Pin waveforms

  /** The levels `__init__` gives the outputs: CS high, CK low, DA low. */
  const IdleLevels: seq<Signal> := [Drive(Cs, true), Drive(Ck, false), Drive(Da, false)]

  /** `txrx`'s output phase: per bit, CK low, DA to the bit, CK high. */
  function ClockOut(bits: seq<bool>): (w: seq<Signal>)
    ensures |w| == 3 * |bits|
  {
    if |bits| == 0 then []
    else ClockOut(bits[..|bits| - 1]) + [Drive(Ck, false), Drive(Da, bits[|bits| - 1]), Drive(Ck, true)]
  }

  /** `txrx`'s input phase: per bit, CK high, sample IO1, CK low. */
  function ClockIn(bits: seq<bool>): (w: seq<Signal>)
    ensures |w| == 3 * |bits|
  {
    if |bits| == 0 then []
    else ClockIn(bits[..|bits| - 1]) + [Drive(Ck, true), Sense(Io1, bits[|bits| - 1]), Drive(Ck, false)]
  }

  lemma {:induction false} ClockOutAppend(a: seq<bool>, b: seq<bool>)
    ensures ClockOut(a + b) == ClockOut(a) + ClockOut(b)
  {
    if |b| == 0 {
      assert a + b == a;
    } else {
      ClockOutAppend(a, b[..|b| - 1]);
      assert (a + b)[..|a + b| - 1] == a + b[..|b| - 1];
    }
  }

  lemma {:induction false} ClockInAppend(a: seq<bool>, b: seq<bool>)
    ensures ClockIn(a + b) == ClockIn(a) + ClockIn(b)
  {
    if |b| == 0 {
      assert a + b == a;
    } else {
      ClockInAppend(a, b[..|b| - 1]);
      assert (a + b)[..|a + b| - 1] == a + b[..|b| - 1];
    }
  }

  /** The whole waveform of one `txrx` call. */
  function FrameWave(f: Frame): seq<Signal>
  {
    [Drive(Cs, false)] + ClockOut(BitsOf(f.tx)) + [Drive(Ck, false)] + ClockIn(BitsOf(f.rx)) + [Drive(Cs, true)]
  }

  /** Appending one frame's waveform to a wire that is the idle levels followed by `ws`. */
  lemma AppendWave(wire: seq<Signal>, c: seq<Signal>, ws: seq<seq<Signal>>, w: seq<Signal>)
    requires c == Concat(ws) && wire == IdleLevels + c
    ensures wire + w == IdleLevels + Concat(ws + [w])
  {
    assert (ws + [w])[..|ws|] == ws;
  }

  function Waves(fs: seq<Frame>): seq<Signal>
  {
    if |fs| == 0 then [] else Waves(fs[..|fs| - 1]) + FrameWave(fs[|fs| - 1])
  }

  /** The `n` IO1 levels sampled from sample index `start` on. */
  function LineBits(line: nat -> bool, start: nat, n: nat): (r: seq<bool>)
    ensures |r| == n
  {
    if n == 0 then [] else LineBits(line, start, n - 1) + [line(start + n - 1)]
  }

  /** The value of the `n` samples from `start` on, read MSB first (`din = din << 1 | bit`). */
  function LineValue(line: nat -> bool, start: nat, n: nat): (r: nat)
    ensures r < Pow2(n)
  {
    if n == 0 then 0 else 2 * LineValue(line, start, n - 1) + (if line(start + n - 1) then 1 else 0)
  }

  /** The byte `txrx` assembles from the eight samples starting at `start`. */
  function LineByte(line: nat -> bool, start: nat): byte
  {
    assert Pow2(8) == 256;
    LineValue(line, start, 8)
  }

  lemma {:induction false} LineValueBits(line: nat -> bool, start: nat, n: nat)
    ensures LineValue(line, start, n) == FromBits(LineBits(line, start, n))
  {
    if n > 0 {
      LineValueBits(line, start, n - 1);
      assert LineBits(line, start, n)[..n - 1] == LineBits(line, start, n - 1);
    }
  }

  /** The `n` bytes `txrx` assembles from the samples starting at `start`. */
  function LineBytes(line: nat -> bool, start: nat, n: nat): (r: seq<byte>)
    ensures |r| == n
  {
    seq(n, i requires 0 <= i < n => LineByte(line, start + 8 * i))
  }

  // ---------------------------------------------------------------------------
  // Reading a waveform back

  /** A rising CK edge latches the current DA level. */
  function EdgeOf(s: Signal, da: bool): seq<bool>
  {
    if s == Drive(Ck, true) then [da] else []
  }

  /** The DA level after the signal `s`. */
  function DaOf(s: Signal, da: bool): bool
  {
    if s.Drive? && s.pin == Da then s.high else da
  }

  /** The IO1 level `s` samples, if it samples IO1. */
  function SenseOf(s: Signal): seq<bool>
  {
    if s.Sense? && s.pin == Io1 then [s.high] else []
  }

  /** The DA level in force at each rising CK edge, starting from DA level `da`. */
  function EdgeLevels(w: seq<Signal>, da: bool): seq<bool>
  {
    if |w| == 0 then [] else EdgeOf(w[0], da) + EdgeLevels(w[1..], DaOf(w[0], da))
  }

  /** The DA level after the waveform `w`. */
  function DaAfter(w: seq<Signal>, da: bool): bool
  {
    if |w| == 0 then da else DaAfter(w[1..], DaOf(w[0], da))
  }

  /** The IO1 levels sampled in `w`, in order. */
  function Senses(w: seq<Signal>): seq<bool>
  {
    if |w| == 0 then [] else SenseOf(w[0]) + Senses(w[1..])
  }

  lemma {:induction false} EdgeLevelsAppend(a: seq<Signal>, b: seq<Signal>, da: bool)
    ensures EdgeLevels(a + b, da) == EdgeLevels(a, da) + EdgeLevels(b, DaAfter(a, da))
    ensures DaAfter(a + b, da) == DaAfter(b, DaAfter(a, da))
  {
    if |a| == 0 {
      assert a + b == b;
    } else {
      assert (a + b)[0] == a[0];
      assert (a + b)[1..] == a[1..] + b;
      EdgeLevelsAppend(a[1..], b, DaOf(a[0], da));
    }
  }

  lemma {:induction false} SensesAppend(a: seq<Signal>, b: seq<Signal>)
    ensures Senses(a + b) == Senses(a) + Senses(b)
  {
    if |a| == 0 {
      assert a + b == b;
    } else {
      assert (a + b)[0] == a[0];
      assert (a + b)[1..] == a[1..] + b;
      SensesAppend(a[1..], b);
    }
  }

  lemma Single(x: Signal, da: bool)
    ensures Senses([x]) == SenseOf(x)
    ensures EdgeLevels([x], da) == EdgeOf(x, da)
    ensures DaAfter([x], da) == DaOf(x, da)
  {
    assert [x][1..] == [];
  }

  /** One bit of the output phase latches that bit and leaves DA at it. */
  lemma OutStep(b: bool, da: bool)
    ensures EdgeLevels([Drive(Ck, false), Drive(Da, b), Drive(Ck, true)], da) == [b]
    ensures DaAfter([Drive(Ck, false), Drive(Da, b), Drive(Ck, true)], da) == b
    ensures Senses([Drive(Ck, false), Drive(Da, b), Drive(Ck, true)]) == []
  {
    var w := [Drive(Ck, false), Drive(Da, b), Drive(Ck, true)];
    assert w[1..] == [Drive(Da, b), Drive(Ck, true)];
    assert w[1..][1..] == [Drive(Ck, true)];
    Single(Drive(Ck, true), b);
  }

  /** One bit of the input phase samples that bit and latches the unchanged DA level. */
  lemma InStep(b: bool, da: bool)
    ensures EdgeLevels([Drive(Ck, true), Sense(Io1, b), Drive(Ck, false)], da) == [da]
    ensures DaAfter([Drive(Ck, true), Sense(Io1, b), Drive(Ck, false)], da) == da
    ensures Senses([Drive(Ck, true), Sense(Io1, b), Drive(Ck, false)]) == [b]
  {
    var w := [Drive(Ck, true), Sense(Io1, b), Drive(Ck, false)];
    assert w[1..] == [Sense(Io1, b), Drive(Ck, false)];
    assert w[1..][1..] == [Drive(Ck, false)];
    Single(Drive(Ck, false), da);
  }

  lemma {:induction false} ClockOutReadsBack(bits: seq<bool>, da: bool)
    ensures EdgeLevels(ClockOut(bits), da) == bits
    ensures Senses(ClockOut(bits)) == []
    ensures |bits| > 0 ==> DaAfter(ClockOut(bits), da) == bits[|bits| - 1]
    ensures |bits| == 0 ==> DaAfter(ClockOut(bits), da) == da
  {
    if |bits| > 0 {
      var init := bits[..|bits| - 1];
      var b := bits[|bits| - 1];
      ClockOutReadsBack(init, da);
      EdgeLevelsAppend(ClockOut(init), [Drive(Ck, false), Drive(Da, b), Drive(Ck, true)], da);
      SensesAppend(ClockOut(init), [Drive(Ck, false), Drive(Da, b), Drive(Ck, true)]);
      OutStep(b, DaAfter(ClockOut(init), da));
      assert init + [b] == bits;
    }
  }

  lemma {:induction false} ClockInReadsBack(bits: seq<bool>)
    ensures Senses(ClockIn(bits)) == bits
  {
    if |bits| > 0 {
      var init := bits[..|bits| - 1];
      var b := bits[|bits| - 1];
      var step := [Drive(Ck, true), Sense(Io1, b), Drive(Ck, false)];
      calc {
        Senses(ClockIn(bits));
        Senses(ClockIn(init) + step);
        { SensesAppend(ClockIn(init), step); }
        Senses(ClockIn(init)) + Senses(step);
        { ClockInReadsBack(init); InStep(b, false); }
        init + [b];
      }
      assert init + [b] == bits;
    }
  }

  /** Chip select is driven only at the two ends of a frame. */
  ghost predicate CsOnlyAtEnds(w: seq<Signal>)
  {
    |w| >= 2 && w[0] == Drive(Cs, false) && w[|w| - 1] == Drive(Cs, true) &&
    forall i :: 0 < i < |w| - 1 ==> w[i].pin != Cs
  }

  lemma {:induction false} ClockNoCs(bits: seq<bool>)
    ensures forall i :: 0 <= i < |ClockOut(bits)| ==> ClockOut(bits)[i].pin != Cs
    ensures forall i :: 0 <= i < |ClockIn(bits)| ==> ClockIn(bits)[i].pin != Cs
  {
    if |bits| > 0 {
      ClockNoCs(bits[..|bits| - 1]);
    }
  }

  lemma FrameWaveCs(f: Frame)
    ensures CsOnlyAtEnds(FrameWave(f))
  {
    ClockNoCs(BitsOf(f.tx));
    ClockNoCs(BitsOf(f.rx));
  }

  lemma FrameWaveEdges(f: Frame, da: bool)
    ensures |EdgeLevels(FrameWave(f), da)| >= 8 * |f.tx|
    ensures EdgeLevels(FrameWave(f), da)[..8 * |f.tx|] == BitsOf(f.tx)
  {
    var out := ClockOut(BitsOf(f.tx));
    var head := [Drive(Cs, false)];
    var rest := [Drive(Ck, false)] + ClockIn(BitsOf(f.rx)) + [Drive(Cs, true)];
    assert FrameWave(f) == head + (out + rest);
    calc {
      EdgeLevels(FrameWave(f), da);
      EdgeLevels(head + (out + rest), da);
      { EdgeLevelsAppend(head, out + rest, da); Single(Drive(Cs, false), da); }
      EdgeLevels(out + rest, da);
      { EdgeLevelsAppend(out, rest, da); }
      EdgeLevels(out, da) + EdgeLevels(rest, DaAfter(out, da));
      { ClockOutReadsBack(BitsOf(f.tx), da); }
      BitsOf(f.tx) + EdgeLevels(rest, DaAfter(out, da));
    }
  }

  lemma FrameWaveSenses(f: Frame)
    ensures Senses(FrameWave(f)) == BitsOf(f.rx)
  {
    var out := ClockOut(BitsOf(f.tx));
    var inp := ClockIn(BitsOf(f.rx));
    var head := [Drive(Cs, false)];
    var mid := [Drive(Ck, false)];
    var tail := [Drive(Cs, true)];
    assert FrameWave(f) == head + (out + (mid + (inp + tail)));
    calc {
      Senses(FrameWave(f));
      Senses(head + (out + (mid + (inp + tail))));
      { SensesAppend(head, out + (mid + (inp + tail))); Single(Drive(Cs, false), false); }
      Senses(out + (mid + (inp + tail)));
      { SensesAppend(out, mid + (inp + tail)); ClockOutReadsBack(BitsOf(f.tx), false); }
      Senses(mid + (inp + tail));
      { SensesAppend(mid, inp + tail); Single(Drive(Ck, false), false); }
      Senses(inp + tail);
      { SensesAppend(inp, tail); Single(Drive(Cs, true), false); ClockInReadsBack(BitsOf(f.rx)); }
      BitsOf(f.rx);
    }
  }

  /**
   * A frame's waveform reads back as the frame: CS is low for exactly its
   * duration, the DA levels at the first 8·|tx| rising edges regroup into the
   * transmitted bytes, and the IO1 samples regroup into the received bytes.
   */
  lemma FrameWaveReadsBack(f: Frame, da: bool)
    ensures CsOnlyAtEnds(FrameWave(f))
    ensures |EdgeLevels(FrameWave(f), da)| >= 8 * |f.tx|
    ensures EdgeLevels(FrameWave(f), da)[..8 * |f.tx|] == BitsOf(f.tx)
    ensures Senses(FrameWave(f)) == BitsOf(f.rx)
    ensures BytesOfBits(EdgeLevels(FrameWave(f), da)[..8 * |f.tx|]) == f.tx
    ensures BytesOfBits(Senses(FrameWave(f))) == f.rx
  {
    FrameWaveCs(f);
    FrameWaveEdges(f, da);
    FrameWaveSenses(f);
    BytesOfBitsOf(f.tx);
    BytesOfBitsOf(f.rx);
  }

  // ---------------------------------------------------------------------------
  // Frame builders

  function WriteFrame(address: byte, data: seq<byte>): Frame
  {
    Frame([WriteCommand(address)] + data, [])
  }

  function ReadFrame(address: byte, rx: seq<byte>): Frame
  {
    Frame([ReadCommand(address)], rx)
  }

  function StrobeFrame(command: nibble): Frame
  {
    Frame([StrobeCommand(command)], [])
  }

  /** `transmit`'s frames: FIFO write-pointer reset, the zero-padded payload into register 0x05, TX. */
  function TransmitFrames(data: seq<byte>, packetLength: nat): seq<Frame>
    requires |data| <= packetLength
  {
    [StrobeFrame(0xE), WriteFrame(0x05, data + Zeros(packetLength - |data|)), StrobeFrame(0xD)]
  }

  /** The register values `setup` programs before calibrating, in program order. */
  const ConfigTable: seq<(byte, byte)> := [
    (0x00, 0x00), (0x01, 0x62), (0x02, 0x00), (0x03, 0x3F), (0x04, 0x00), (0x07, 0x00),
    (0x08, 0x00), (0x09, 0x00), (0x0A, 0x00), (0x0B, 0x19), (0x0C, 0x01), (0x0D, 0x05),
    (0x0E, 0x00), (0x0F, 0x00), (0x10, 0x9E), (0x11, 0x4B), (0x12, 0x00), (0x13, 0x02),
    (0x14, 0x16), (0x15, 0x2B), (0x16, 0x12), (0x17, 0x4F), (0x18, 0x63), (0x19, 0x80),
    (0x1A, 0x80), (0x1B, 0x00), (0x1C, 0x0A), (0x1D, 0x32), (0x1E, 0xC3), (0x1F, 0x1F),
    (0x20, 0x16), (0x21, 0x00), (0x22, 0x00), (0x24, 0x13), (0x26, 0x23), (0x27, 0x00),
    (0x28, 0x37), (0x29, 0x47), (0x2A, 0x80), (0x2B, 0xD6), (0x2C, 0x01), (0x2D, 0x51),
    (0x2E, 0x18), (0x2F, 0x00), (0x30, 0x01), (0x31, 0x0F), (0x32, 0x00), (0x32, 0x7F)]

  function ConfigFrames(table: seq<(byte, byte)>): (fs: seq<Frame>)
    ensures |fs| == |table|
  {
    seq(|table|, i requires 0 <= i < |table| => WriteFrame(table[i].0, [table[i].1]))
  }

  /** The calibration frames of `setup`, given the four bytes read back (CCR, 0x22, 0x24, 0x25). */
  function CalibrationFrames(ccr: byte, ifCal: byte, vcoCurrent: byte, vcoBank: byte): seq<Frame>
  {
    [WriteFrame(0x22, [0]), WriteFrame(0x24, [0]), WriteFrame(0x25, [0]), StrobeFrame(0xB),
     WriteFrame(0x02, [0x0F]),
     ReadFrame(0x02, [ccr]), ReadFrame(0x22, [ifCal]), ReadFrame(0x24, [vcoCurrent]), ReadFrame(0x25, [vcoBank])]
  }

  /** What `setup` prints: CCR low nibble pending, IF filter (0x22 bit 4), VCO current (0x24 bit 4), VCO bank (0x25 bit 3). */
  function CalibrationOf(ccr: byte, ifCal: byte, vcoCurrent: byte, vcoBank: byte): CalibrationReport
  {
    CalibrationReport(ccr % 16 != 0, Bit(ifCal, 4), Bit(vcoCurrent, 4), Bit(vcoBank, 3))
  }

  /** The report of a calibration whose four read-backs take the IO1 samples from `s` on. */
  function CalibrationAt(line: nat -> bool, s: nat): CalibrationReport
  {
    CalibrationOf(LineBytes(line, s, 1)[0], LineBytes(line, s + 8, 1)[0],
                  LineBytes(line, s + 16, 1)[0], LineBytes(line, s + 24, 1)[0])
  }

  function Concat(ws: seq<seq<Signal>>): seq<Signal>
  {
    if |ws| == 0 then [] else Concat(ws[..|ws| - 1]) + ws[|ws| - 1]
  }

  lemma {:induction false} ConcatOfFrameWaves(ws: seq<seq<Signal>>, fs: seq<Frame>)
    requires |ws| == |fs| && forall i :: 0 <= i < |fs| ==> ws[i] == FrameWave(fs[i])
    ensures Concat(ws) == Waves(fs)
  {
    if |fs| > 0 {
      ConcatOfFrameWaves(ws[..|ws| - 1], fs[..|fs| - 1]);
    }
  }

  /** The frames of `setup` when its four calibration reads start at sample `start`. */
  function SetupFrames(line: nat -> bool, start: nat): seq<Frame>
  {
    ConfigFrames(ConfigTable)
    + CalibrationFrames(LineBytes(line, start, 1)[0], LineBytes(line, start + 8, 1)[0],
                        LineBytes(line, start + 16, 1)[0], LineBytes(line, start + 24, 1)[0])
  }

  /** How `__init__` ends: a range error for the channel, a mismatching ID read back, or success. */
  function InitOutcome(channel: int, back: nat, id: uint32): Outcome<Error>
  {
    if !(0 <= channel <= 255) then Fail(DataOutOfRange(channel))
    else if back != id then Fail(IdMismatch(back, id))
    else Pass
  }

  /** The frames of `set_channel`, `set_id` (with the bytes read back) and `set_packet_length(64)`. */
  function IdentifyFrames(id: uint32, channel: byte, back: seq<byte>): seq<Frame>
  {
    [WriteFrame(0x0F, [channel]), WriteFrame(0x06, BE(id, 4)), ReadFrame(0x06, back), WriteFrame(0x03, [63])]
  }

  /** The frames of `setup`, `set_channel`, `set_id` and `set_packet_length(64)`, from IO1 sample `start` on. */
  function InitFrames(line: nat -> bool, start: nat, id: uint32, channel: byte): seq<Frame>
  {
    SetupFrames(line, start) + IdentifyFrames(id, channel, LineBytes(line, start + 32, 4))
  }

  /** The frames of a successful `__init__`. */
  function OpenFrames(line: nat -> bool, id: uint32, channel: byte): seq<Frame>
  {
    InitFrames(line, 0, id, channel)
  }

  // ---------------------------------------------------------------------------
  // The driver

  /** One more IO1 sample extends the bits, the value and the waveform of a byte being read. */
  lemma LineStep(line: nat -> bool, start: nat, k: nat, got: seq<bool>, level: bool)
    requires got == LineBits(line, start, k) && level == line(start + k)
    ensures got + [level] == LineBits(line, start, k + 1)
    ensures LineValue(line, start, k + 1) == 2 * LineValue(line, start, k) + (if level then 1 else 0)
    ensures ClockIn(got + [level]) == ClockIn(got) + [Drive(Ck, true), Sense(Io1, level), Drive(Ck, false)]
  {
    assert (got + [level])[..k] == got;
  }

  /** The eight samples of a byte are the bits of the byte they assemble. */
  lemma LineByteBits(line: nat -> bool, start: nat, got: seq<bool>)
    requires got == LineBits(line, start, 8)
    ensures LineValue(line, start, 8) < 256
    ensures ByteBits(LineByte(line, start)) == got
  {
    assert Pow2(8) == 256;
    LineValueBits(line, start, 8);
    ToBitsOfFromBits(got);
  }

  class Radio {
    /** The level the chip presents on IO1 at each successive sample. */
    const io1: nat -> bool
    /** Every GPIO operation so far. */
    var wire: seq<Signal>
    /** The waveform of each frame, in order. */
    ghost var waves: seq<seq<Signal>>
    /** The chip-select frames so far. */
    ghost var frames: seq<Frame>
    /** Number of IO1 samples taken so far. */
    var samples: nat
    /** `self.packet_length`; 0 until `set_packet_length` first succeeds. */
    var packetLength: int

    /** The wire is the idle levels followed by the waveform of each frame in turn. */
    ghost predicate Valid()
      reads this
    {
      && wire == IdleLevels + Concat(waves)
      && |waves| == |frames|
      && forall i {:trigger FrameWave(frames[i])} :: 0 <= i < |frames| ==> waves[i] == FrameWave(frames[i])
    }

    lemma WireIsWaves()
      requires Valid()
      ensures wire == IdleLevels + Waves(frames)
    {
      ConcatOfFrameWaves(waves, frames);
    }

    ghost predicate Ready()
      reads this
    {
      Valid() && 1 <= packetLength <= 64
    }

    /** The GPIO set-up of `__init__`: CS high, CK low, DA low, IO1 and IO2 inputs. */
    constructor (io1: nat -> bool)
      ensures Valid() && this.io1 == io1
      ensures wire == IdleLevels && frames == [] && samples == 0 && packetLength == 0 && waves == []
    {
      this.io1 := io1;
      wire := IdleLevels;
      waves := [];
      frames := [];
      samples := 0;
      packetLength := 0;
    }

    /** One byte of `txrx`'s output phase, most significant bit first. */
    static method ShiftOutByte(d: byte) returns (w: seq<Signal>)
      ensures w == ClockOut(ByteBits(d))
    {
      var bits := ByteBits(d);
      w := [];
      var j := 0;
      while j < 8
        invariant 0 <= j <= 8
        invariant w == ClockOut(bits[..j])
      {
        w := w + [Drive(Ck, false), Drive(Da, bits[j]), Drive(Ck, true)];
        assert bits[..j + 1][..j] == bits[..j];
        j := j + 1;
      }
      assert bits[..8] == bits;
    }

    /** `txrx`'s output phase over all of `data`. */
    static method ShiftOut(data: seq<byte>) returns (w: seq<Signal>)
      ensures w == ClockOut(BitsOf(data))
    {
      w := [];
      var i := 0;
      while i < |data|
        invariant 0 <= i <= |data|
        invariant w == ClockOut(BitsOf(data[..i]))
      {
        var step := ShiftOutByte(data[i]);
        assert data[..i + 1] == data[..i] + [data[i]];
        BitsOfSnoc(data[..i], data[i]);
        ClockOutAppend(BitsOf(data[..i]), ByteBits(data[i]));
        w := w + step;
        i := i + 1;
      }
      assert data[..i] == data;
    }

    /** One byte of `txrx`'s input phase: eight IO1 samples, most significant bit first. */
    method ShiftInByte() returns (b: byte, w: seq<Signal>)
      modifies this`samples
      ensures b == LineByte(io1, old(samples))
      ensures w == ClockIn(ByteBits(b))
      ensures samples == old(samples) + 8
    {
      var din := 0;
      w := [];
      var k := 0;
      ghost var got: seq<bool> := [];
      while k < 8
        invariant 0 <= k <= 8
        invariant got == LineBits(io1, old(samples), k)
        invariant din == LineValue(io1, old(samples), k)
        invariant samples == old(samples) + k
        invariant w == ClockIn(got)
      {
        w := w + [Drive(Ck, true)];
        din := din * 2;
        var level := io1(samples);
        samples := samples + 1;
        w := w + [Sense(Io1, level)];
        if level {
          din := din + 1;
        }
        w := w + [Drive(Ck, false)];
        LineStep(io1, old(samples), k, got, level);
        got := got + [level];
        k := k + 1;
      }
      LineByteBits(io1, old(samples), got);
      b := din;
    }

    /** `txrx`'s input phase: `n` bytes. */
    method ShiftIn(n: nat) returns (rx: seq<byte>, w: seq<Signal>)
      modifies this`samples
      ensures rx == LineBytes(io1, old(samples), n)
      ensures w == ClockIn(BitsOf(rx))
      ensures samples == old(samples) + 8 * n
    {
      rx := [];
      w := [];
      var k := 0;
      while k < n
        invariant 0 <= k <= n
        invariant rx == LineBytes(io1, old(samples), k)
        invariant samples == old(samples) + 8 * k
        invariant w == ClockIn(BitsOf(rx))
      {
        var b, step := ShiftInByte();
        assert ClockIn(BitsOf(rx + [b])) == w + step by {
          BitsOfSnoc(rx, b);
          ClockInAppend(BitsOf(rx), ByteBits(b));
        }
        assert LineBytes(io1, old(samples), k + 1) == rx + [b];
        rx := rx + [b];
        w := w + step;
        k := k + 1;
      }
    }

    /** `txrx`: one CS-low frame shifting `data` out MSB first, then `rxLen` bytes in MSB first. */
    method TxRx(data: seq<byte>, rxLen: nat) returns (rx: seq<byte>)
      requires Valid()
      modifies this
      ensures Valid()
      ensures rx == LineBytes(io1, old(samples), rxLen)
      ensures samples == old(samples) + 8 * rxLen
      ensures frames == old(frames) + [Frame(data, rx)]
      ensures packetLength == old(packetLength)
    {
      var out := ShiftOut(data);
      var inp;
      rx, inp := ShiftIn(rxLen);
      var w := [Drive(Cs, false)] + out + [Drive(Ck, false)] + inp + [Drive(Cs, true)];
      AppendWave(wire, Concat(waves), waves, w);
      wire := wire + w;
      waves := waves + [w];
      frames := frames + [Frame(data, rx)];
      forall i | 0 <= i < |frames|
        ensures waves[i] == FrameWave(frames[i])
      {
        if i < |old(frames)| {
          assert waves[i] == old(waves)[i] && frames[i] == old(frames)[i];
          assert old(waves)[i] == FrameWave(old(frames)[i]);
        }
      }
    }

    /** `write_reg` with a byte string: one frame `[address] ++ data`. */
    method WriteReg(address: byte, data: seq<byte>)
      requires Valid()
      modifies this
      ensures Valid()
      ensures frames == old(frames) + [WriteFrame(address, data)]
      ensures samples == old(samples) && packetLength == old(packetLength)
    {
      var _ := TxRx([address] + data, 0);
    }

    /** `write_reg` with an integer: refused outside 0..255, otherwise a one-byte write. */
    method WriteRegValue(address: byte, value: int) returns (o: Outcome<Error>)
      requires Valid()
      modifies this
      ensures Valid()
      ensures 0 <= value <= 255 ==> o == Pass && frames == old(frames) + [WriteFrame(address, [value])]
      ensures !(0 <= value <= 255) ==> o == Fail(DataOutOfRange(value)) && frames == old(frames) && wire == old(wire)
      ensures samples == old(samples) && packetLength == old(packetLength)
    {
      if value > 255 || value < 0 {
        return Fail(DataOutOfRange(value));
      }
      WriteReg(address, [value]);
      o := Pass;
    }

    /** `read_reg`: the command `address | 0x40`, then exactly `len` bytes in. */
    method ReadReg(address: byte, len: nat) returns (rx: seq<byte>)
      requires Valid()
      modifies this
      ensures Valid()
      ensures rx == LineBytes(io1, old(samples), len) && |rx| == len
      ensures samples == old(samples) + 8 * len
      ensures frames == old(frames) + [ReadFrame(address, rx)]
      ensures packetLength == old(packetLength)
    {
      rx := TxRx([ReadCommand(address)], len);
    }

    /** `strobe`: the single byte `command << 4`. */
    method Strobe(command: nibble)
      requires Valid()
      modifies this
      ensures Valid()
      ensures frames == old(frames) + [StrobeFrame(command)]
      ensures samples == old(samples) && packetLength == old(packetLength)
    {
      var _ := TxRx([StrobeCommand(command)], 0);
    }

    /** `set_channel`: register 0x0F, range-checked by `write_reg`. */
    method SetChannel(channel: int) returns (o: Outcome<Error>)
      requires Valid()
      modifies this
      ensures Valid()
      ensures o == if 0 <= channel <= 255 then Pass else Fail(DataOutOfRange(channel))
      ensures frames == if o.Pass? then old(frames) + [WriteFrame(0x0F, [channel])] else old(frames)
      ensures samples == old(samples) && packetLength == old(packetLength)
    {
      o := WriteRegValue(0x0F, channel);
    }

    /** `set_id`: the ID big-endian into register 0x06, read back four bytes, fail exactly on a mismatch. */
    method SetId(id: uint32) returns (o: Outcome<Error>)
      requires Valid()
      modifies this
      ensures Valid()
      ensures var back := LineBytes(io1, old(samples), 4);
        && frames == old(frames) + [WriteFrame(0x06, BE(id, 4)), ReadFrame(0x06, back)]
        && o == if FromBE(back) == id then Pass else Fail(IdMismatch(FromBE(back), id))
      ensures samples == old(samples) + 32 && packetLength == old(packetLength)
    {
      var val := BE(id, 4);
      WriteReg(0x06, val);
      var back := ReadReg(0x06, 4);
      var v := FromBE(back);
      if v != id {
        return Fail(IdMismatch(v, id));
      }
      o := Pass;
    }

    /** `set_packet_length`: only 1..64 is accepted; the value is stored and `length - 1` goes to register 0x03. */
    method SetPacketLength(length: int) returns (o: Outcome<Error>)
      requires Valid()
      modifies this
      ensures Valid()
      ensures o == if 1 <= length <= 64 then Pass else Fail(PacketLengthOutOfRange(length))
      ensures packetLength == if o.Pass? then length else old(packetLength)
      ensures frames == if o.Pass? then old(frames) + [WriteFrame(0x03, [length - 1])] else old(frames)
      ensures samples == old(samples)
    {
      if length > 64 || length < 1 {
        return Fail(PacketLengthOutOfRange(length));
      }
      packetLength := length;
      var _ := WriteRegValue(0x03, length - 1);
      o := Pass;
    }

    /**
     * `transmit`: refused when longer than the packet length; otherwise the
     * payload is padded with zeros to exactly the packet length.
     */
    method Transmit(data: seq<byte>) returns (o: Outcome<Error>)
      requires Ready()
      modifies this
      ensures Ready()
      ensures o == if |data| <= packetLength then Pass else Fail(PacketTooLong(|data|, packetLength))
      ensures frames == if o.Pass? then old(frames) + TransmitFrames(data, packetLength) else old(frames)
      ensures samples == old(samples) && packetLength == old(packetLength)
    {
      if |data| > packetLength {
        return Fail(PacketTooLong(|data|, packetLength));
      }
      var payload := data + Zeros(packetLength - |data|);
      Strobe(0xE);
      WriteReg(0x05, payload);
      Strobe(0xD);
      o := Pass;
    }

    /**
     * `blocking_receive`: strobe RX, read the mode register; a CRC error
     * (bit 5) or else an FEC error (bit 6) is raised; only when both are
     * clear is the RX FIFO pointer reset and a whole packet read from 0x05.
     */
    method BlockingReceive() returns (r: Result<seq<byte>, Error>)
      requires Ready()
      modifies this
      ensures Ready() && packetLength == old(packetLength)
      ensures var mode := LineBytes(io1, old(samples), 1)[0];
        var head := old(frames) + [StrobeFrame(0xC), ReadFrame(0x00, [mode])];
        && (Bit(mode, 5) ==> r == Failure(CrcError) && frames == head && samples == old(samples) + 8)
        && (!Bit(mode, 5) && Bit(mode, 6) ==> r == Failure(FecError) && frames == head && samples == old(samples) + 8)
        && (!Bit(mode, 5) && !Bit(mode, 6) ==>
              && r == Success(LineBytes(io1, old(samples) + 8, packetLength))
              && frames == head + [StrobeFrame(0xF), ReadFrame(0x05, r.value)]
              && samples == old(samples) + 8 + 8 * packetLength)
    {
      Strobe(0xC);
      var m := ReadReg(0x00, 1);
      var mode := m[0];
      assert m == [mode];
      if Bit(mode, 5) {
        return Failure(CrcError);
      }
      if Bit(mode, 6) {
        return Failure(FecError);
      }
      Strobe(0xF);
      var data := ReadReg(0x05, packetLength);
      r := Success(data);
    }

    /** The register programming of `setup` (every value is in range, so no write is refused). */
    method Configure()
      requires Valid()
      modifies this
      ensures Valid()
      ensures frames == old(frames) + ConfigFrames(ConfigTable)
      ensures samples == old(samples) && packetLength == old(packetLength)
    {
      var i := 0;
      while i < |ConfigTable|
        invariant 0 <= i <= |ConfigTable|
        invariant Valid()
        invariant frames == old(frames) + ConfigFrames(ConfigTable[..i])
        invariant samples == old(samples) && packetLength == old(packetLength)
      {
        var (address, value) := ConfigTable[i];
        var _ := WriteRegValue(address, value);
        assert ConfigTable[..i + 1][..i] == ConfigTable[..i];
        i := i + 1;
      }
      assert ConfigTable[..i] == ConfigTable;
    }

    /**
     * The start of the calibration in `setup`: clear MFBS, MCVS and MVBS,
     * enter PLL mode, then write 0x0F to CCR to start all calibrations.
     */
    method StartCalibration()
      requires Valid()
      modifies this
      ensures Valid()
      ensures frames == old(frames) + CalibrationFrames(0, 0, 0, 0)[..5]
      ensures samples == old(samples) && packetLength == old(packetLength)
    {
      WriteReg(0x22, [0]);
      WriteReg(0x24, [0]);
      WriteReg(0x25, [0]);
      Strobe(0xB);
      WriteReg(0x02, [0x0F]);
    }

    /** The end of the calibration in `setup`: read CCR and the three result registers; failures are only reported. */
    method ReadCalibration() returns (report: CalibrationReport)
      requires Valid()
      modifies this
      ensures Valid()
      ensures var s := old(samples);
        var ccr := LineBytes(io1, s, 1)[0];
        var ifCal := LineBytes(io1, s + 8, 1)[0];
        var vcoCurrent := LineBytes(io1, s + 16, 1)[0];
        var vcoBank := LineBytes(io1, s + 24, 1)[0];
        frames == old(frames) + CalibrationFrames(ccr, ifCal, vcoCurrent, vcoBank)[5..]
      ensures report == CalibrationAt(io1, old(samples))
      ensures samples == old(samples) + 32 && packetLength == old(packetLength)
    {
      var ccr := ReadReg(0x02, 1);
      var ifCal := ReadReg(0x22, 1);
      var vcoCurrent := ReadReg(0x24, 1);
      var vcoBank := ReadReg(0x25, 1);
      assert ccr == [ccr[0]] && ifCal == [ifCal[0]] && vcoCurrent == [vcoCurrent[0]] && vcoBank == [vcoBank[0]];
      report := CalibrationOf(ccr[0], ifCal[0], vcoCurrent[0], vcoBank[0]);
    }

    /** The calibration of `setup`. */
    method Calibrate() returns (report: CalibrationReport)
      requires Valid()
      modifies this
      ensures Valid()
      ensures var s := old(samples);
        var ccr := LineBytes(io1, s, 1)[0];
        var ifCal := LineBytes(io1, s + 8, 1)[0];
        var vcoCurrent := LineBytes(io1, s + 16, 1)[0];
        var vcoBank := LineBytes(io1, s + 24, 1)[0];
        frames == old(frames) + CalibrationFrames(ccr, ifCal, vcoCurrent, vcoBank)
      ensures report == CalibrationAt(io1, old(samples))
      ensures samples == old(samples) + 32 && packetLength == old(packetLength)
    {
      StartCalibration();
      report := ReadCalibration();
      ghost var s := old(samples);
      ghost var fs := CalibrationFrames(LineBytes(io1, s, 1)[0], LineBytes(io1, s + 8, 1)[0],
                                        LineBytes(io1, s + 16, 1)[0], LineBytes(io1, s + 24, 1)[0]);
      assert fs == fs[..5] + fs[5..];
      assert fs[..5] == CalibrationFrames(0, 0, 0, 0)[..5];
    }

    /** `setup`: register programming, then calibration. */
    method Setup() returns (report: CalibrationReport)
      requires Valid()
      modifies this
      ensures Valid()
      ensures frames == old(frames) + SetupFrames(io1, old(samples))
      ensures report == CalibrationAt(io1, old(samples))
      ensures samples == old(samples) + 32 && packetLength == old(packetLength)
    {
      Configure();
      ghost var s := samples;
      report := Calibrate();
      AppendAssoc(old(frames), ConfigFrames(ConfigTable),
                  CalibrationFrames(LineBytes(io1, s, 1)[0], LineBytes(io1, s + 8, 1)[0],
                                    LineBytes(io1, s + 16, 1)[0], LineBytes(io1, s + 24, 1)[0]));
    }

    /** `set_channel(channel)`, `set_id(id)`, `set_packet_length(64)`, stopping at the first exception. */
    method Identify(id: uint32, channel: int) returns (o: Outcome<Error>)
      requires Valid()
      modifies this
      ensures Valid()
      ensures o == InitOutcome(channel, FromBE(LineBytes(io1, old(samples), 4)), id)
      ensures o.Pass? ==>
        && packetLength == 64 && samples == old(samples) + 32
        && frames == old(frames) + IdentifyFrames(id, channel, LineBytes(io1, old(samples), 4))
      ensures !(0 <= channel <= 255) ==>
        frames == old(frames) && samples == old(samples) && packetLength == old(packetLength)
      ensures 0 <= channel <= 255 && o.Fail? ==>
        && packetLength == old(packetLength) && samples == old(samples) + 32
        && frames == old(frames) + IdentifyFrames(id, channel, LineBytes(io1, old(samples), 4))[..3]
    {
      o := SetChannel(channel);
      if o.Fail? {
        return;
      }
      o := SetId(id);
      if o.Fail? {
        assert IdentifyFrames(id, channel, LineBytes(io1, old(samples), 4))[..3]
          == [WriteFrame(0x0F, [channel]), WriteFrame(0x06, BE(id, 4)), ReadFrame(0x06, LineBytes(io1, old(samples), 4))];
        return;
      }
      o := SetPacketLength(64);
      AppendFour(old(frames), WriteFrame(0x0F, [channel]), WriteFrame(0x06, BE(id, 4)),
                 ReadFrame(0x06, LineBytes(io1, old(samples), 4)), WriteFrame(0x03, [63]));
    }

    /** The configuration part of `__init__`: `setup`, then `Identify`. */
    method Initialize(id: uint32, channel: int) returns (o: Outcome<Error>, report: CalibrationReport)
      requires Valid()
      modifies this
      ensures Valid()
      ensures report == CalibrationAt(io1, old(samples))
      ensures o == InitOutcome(channel, FromBE(LineBytes(io1, old(samples) + 32, 4)), id)
      ensures o.Pass? ==>
        && packetLength == 64 && samples == old(samples) + 64
        && frames == old(frames) + InitFrames(io1, old(samples), id, channel)
      ensures !(0 <= channel <= 255) ==>
        && packetLength == old(packetLength) && samples == old(samples) + 32
        && frames == old(frames) + SetupFrames(io1, old(samples))
      ensures 0 <= channel <= 255 && o.Fail? ==>
        && packetLength == old(packetLength) && samples == old(samples) + 64
        && frames == old(frames) + SetupFrames(io1, old(samples))
                     + IdentifyFrames(id, channel, LineBytes(io1, old(samples) + 32, 4))[..3]
    {
      report := Setup();
      ghost var f := frames;
      o := Identify(id, channel);
      if o.Pass? {
        AppendAssoc(old(frames), SetupFrames(io1, old(samples)),
                    IdentifyFrames(id, channel, LineBytes(io1, old(samples) + 32, 4)));
      }
    }

    /**
     * `__init__`: GPIO set-up, then `Initialize`; the `packet_len` argument
     * is ignored.  A raised exception is a `Failure` and no radio is returned.
     */
    static method Open(io1: nat -> bool, id: uint32, channel: int, packetLen: int)
      returns (r: Result<Radio, Error>, report: CalibrationReport)
      ensures report == CalibrationAt(io1, 0)
      ensures InitOutcome(channel, FromBE(LineBytes(io1, 32, 4)), id).Fail? ==>
        r == Failure(InitOutcome(channel, FromBE(LineBytes(io1, 32, 4)), id).error)
      ensures InitOutcome(channel, FromBE(LineBytes(io1, 32, 4)), id).Pass? ==>
        && r.Success? && fresh(r.value) && r.value.Ready() && r.value.io1 == io1
        && r.value.packetLength == 64 && r.value.samples == 64
        && r.value.frames == OpenFrames(io1, id, channel)
    {
      var radio := new Radio(io1);
      var o;
      o, report := radio.Initialize(id, channel);
      if o.Fail? {
        return Failure(o.error), report;
      }
      assert 0 <= channel <= 255;
      assert radio.frames == OpenFrames(io1, id, channel) by {
        AppendToEmpty(InitFrames(io1, 0, id, channel));
      }
      r := Success(radio);
    }
  }
}
