/**
 * The MSP430 pin layer of the tag firmware (src/pins.h): a pin address
 * `0xSB` names register set `S` (P1..P3) and bit `B`; `pin_ddr`,
 * `pin_write` and `pin_read` touch one bit of one register, and
 * `spi_write` bit-bangs a byte MSB first on a data pin and a clock pin.
 *
 * The direction and output registers are two four-byte sequences indexed
 * by register set, fields that every pin operation reassigns (set 0 is the
 * `ports[0]` entry whose pointers are NULL).  Every pin
 * operation is also appended to a ghost trace of bus events, and the
 * registers are always the result of replaying that trace.  Input
 * registers are an oracle: the `r`-th pin read sees `input(r)`.
 */
module Pins {
  import opened Sequences

  /** `(port >> 4) & 0x3`: which entry of `ports[]` a pin address selects. */
  function RegisterSet(port: bv8): (i: nat)
    ensures i < 4
  {
    ((port >> 4) & 3) as nat
  }

  /** `ports[0]` holds NULL pointers: only sets 1 to 3 are real registers. */
  predicate Wired(port: bv8)
  {
    RegisterSet(port) != 0
  }

  /** `1 << (port & 0x7)`: always exactly one bit. */
  function Mask(port: bv8): (m: bv8)
    ensures m != 0 && m & (m - 1) == 0
  {
    1 << (port & 7)
  }

  /** The read-modify-write of `*reg |= mask` or `*reg &= ~mask`. */
  function SetBit(reg: bv8, mask: bv8, on: bool): (r: bv8)
    ensures r & mask == (if on then mask else 0)
    ensures r & !mask == reg & !mask
  {
    if on then reg | mask else reg & !mask
  }

  /** One operation on the pins, as it appears on the bus. */
  datatype Event =
    | SetDir(port: bv8, output: bool)
    | SetPin(port: bv8, high: bool)
    | GetPin(port: bv8, value: bv8)

  /** The output registers after `events`, starting from `regs`. */
  function OutAfter(regs: seq<bv8>, events: seq<Event>): (r: seq<bv8>)
    requires |regs| == 4
    ensures |r| == 4
  {
    if |events| == 0 then regs
    else
      var before := OutAfter(regs, events[..|events| - 1]);
      match events[|events| - 1]
      case SetPin(port, high) =>
        before[RegisterSet(port) := SetBit(before[RegisterSet(port)], Mask(port), high)]
      case _ => before
  }

  /** The direction registers after `events`, starting from `regs`. */
  function DirAfter(regs: seq<bv8>, events: seq<Event>): (r: seq<bv8>)
    requires |regs| == 4
    ensures |r| == 4
  {
    if |events| == 0 then regs
    else
      var before := DirAfter(regs, events[..|events| - 1]);
      match events[|events| - 1]
      case SetDir(port, output) =>
        before[RegisterSet(port) := SetBit(before[RegisterSet(port)], Mask(port), output)]
      case _ => before
  }
  /** One more event changes at most the one register bit it names. */
  lemma ReplaySnoc(dir0: seq<bv8>, out0: seq<bv8>, events: seq<Event>, e: Event)
    requires |dir0| == 4 && |out0| == 4
    ensures OutAfter(out0, events + [e]) == if e.SetPin? then
      OutAfter(out0, events)[RegisterSet(e.port) := SetBit(OutAfter(out0, events)[RegisterSet(e.port)], Mask(e.port), e.high)]
      else OutAfter(out0, events)
    ensures DirAfter(dir0, events + [e]) == if e.SetDir? then
      DirAfter(dir0, events)[RegisterSet(e.port) := SetBit(DirAfter(dir0, events)[RegisterSet(e.port)], Mask(e.port), e.output)]
      else DirAfter(dir0, events)
  {
    assert (events + [e])[..|events|] == events;
  }


  lemma {:induction false} OutAfterAppend(regs: seq<bv8>, a: seq<Event>, b: seq<Event>)
    requires |regs| == 4
    ensures OutAfter(regs, a + b) == OutAfter(OutAfter(regs, a), b)
    decreases |b|
  {
    if |b| == 0 {
      assert a + b == a;
    } else {
      var n := |b| - 1;
      assert (a + b)[..|a + b| - 1] == a + b[..n];
      OutAfterAppend(regs, a, b[..n]);
    }
  }

  /** The level a pin is driven to by the output register. */
  function Level(regs: seq<bv8>, port: bv8): bool
    requires |regs| == 4
  {
    regs[RegisterSet(port)] & Mask(port) != 0
  }

  /** Two pin addresses that name the same bit of the same register set. */
  predicate SamePin(p: bv8, q: bv8)
  {
    RegisterSet(p) == RegisterSet(q) && p & 7 == q & 7
  }

  /** Masks of different bit numbers share no bit. */
  lemma MasksDisjoint(p: bv8, q: bv8)
    requires p & 7 != q & 7
    ensures Mask(p) & Mask(q) == 0
  {
  }

  /** Setting one pin's bit changes that pin's level and no other pin's. */
  lemma LevelAfterSetBit(regs: seq<bv8>, p: bv8, on: bool, q: bv8)
    requires |regs| == 4
    ensures Level(regs[RegisterSet(p) := SetBit(regs[RegisterSet(p)], Mask(p), on)], q)
      == (if SamePin(p, q) then on else Level(regs, q))
  {
    if RegisterSet(p) == RegisterSet(q) && p & 7 != q & 7 {
      MasksDisjoint(p, q);
    }
  }

  /** The level pin `q` was last driven to in `events`, or `level` if it never was. */
  function LastLevel(events: seq<Event>, q: bv8, level: bool): bool
  {
    if |events| == 0 then level
    else
      var e := events[|events| - 1];
      if e.SetPin? && SamePin(e.port, q) then e.high else LastLevel(events[..|events| - 1], q, level)
  }

  /** The direction pin `q` was last given in `events`, or `output` if it never was. */
  function LastDirection(events: seq<Event>, q: bv8, output: bool): bool
  {
    if |events| == 0 then output
    else
      var e := events[|events| - 1];
      if e.SetDir? && SamePin(e.port, q) then e.output else LastDirection(events[..|events| - 1], q, output)
  }

  /** A pin's output level is the level its last `pin_write` gave it: nothing else touches it. */
  lemma {:induction false} OutLevel(regs: seq<bv8>, events: seq<Event>, q: bv8)
    requires |regs| == 4
    ensures Level(OutAfter(regs, events), q) == LastLevel(events, q, Level(regs, q))
  {
    if |events| > 0 {
      var prefix := events[..|events| - 1];
      OutLevel(regs, prefix, q);
      var e := events[|events| - 1];
      if e.SetPin? {
        LevelAfterSetBit(OutAfter(regs, prefix), e.port, e.high, q);
      }
    }
  }

  /** A pin's direction is the one its last `pin_ddr` gave it. */
  lemma {:induction false} DirLevel(regs: seq<bv8>, events: seq<Event>, q: bv8)
    requires |regs| == 4
    ensures Level(DirAfter(regs, events), q) == LastDirection(events, q, Level(regs, q))
  {
    if |events| > 0 {
      var prefix := events[..|events| - 1];
      DirLevel(regs, prefix, q);
      var e := events[|events| - 1];
      if e.SetDir? {
        LevelAfterSetBit(DirAfter(regs, prefix), e.port, e.output, q);
      }
    }
  }

  lemma {:induction false} LastLevelAppend(a: seq<Event>, b: seq<Event>, q: bv8, level: bool)
    ensures LastLevel(a + b, q, level) == LastLevel(b, q, LastLevel(a, q, level))
    decreases |b|
  {
    if |b| == 0 {
      assert a + b == a;
    } else {
      assert (a + b)[..|a + b| - 1] == a + b[..|b| - 1];
      LastLevelAppend(a, b[..|b| - 1], q, level);
    }
  }

  lemma {:induction false} LastDirectionAppend(a: seq<Event>, b: seq<Event>, q: bv8, output: bool)
    ensures LastDirection(a + b, q, output) == LastDirection(b, q, LastDirection(a, q, output))
    decreases |b|
  {
    if |b| == 0 {
      assert a + b == a;
    } else {
      assert (a + b)[..|a + b| - 1] == a + b[..|b| - 1];
      LastDirectionAppend(a, b[..|b| - 1], q, output);
    }
  }

  /** `0x80 >> k`, the mask of `spi_write`'s loop after `k` steps; 0 after eight. */
  function StepMask(k: nat): (m: bv8)
    requires k <= 8
    ensures k < 8 <==> m != 0
  {
    match k
    case 0 => 0x80
    case 1 => 0x40
    case 2 => 0x20
    case 3 => 0x10
    case 4 => 0x08
    case 5 => 0x04
    case 6 => 0x02
    case 7 => 0x01
    case 8 => 0
  }

  /**
   * What step `k` of a transfer samples when the first of its reads is read
   * number `r0`: the masked input register, or nothing without an input pin.
   */
  function SampleAt(input: nat -> bv8, inPort: bv8, r0: nat, k: nat): bv8
  {
    if inPort != 0 then input(r0 + k) & Mask(inPort) else 0
  }

  /** Bit `7 - k` of `value`, the one step `k` sends. */
  function BitOf(value: bv8, k: nat): bool
    requires k < 8
  {
    value & StepMask(k) != 0
  }

  /** The most significant bit first expansion of a byte. */
  function MsbBits(value: bv8): (bits: seq<bool>)
    ensures |bits| == 8
  {
    seq(8, k requires 0 <= k < 8 => BitOf(value, k))
  }

  /**
   * The events of one step of `spi_write`'s loop: the data pin is driven
   * to `bit` (unless there is no data pin), the clock goes high, the input
   * pin is sampled (when there is one) and the clock goes low.
   */
  function StepEvents(clk: bv8, outPort: bv8, inPort: bv8, bit: bool, sample: bv8): (es: seq<Event>)
  {
    (if outPort != 0 then [SetPin(outPort, bit)] else [])
    + [SetPin(clk, true)]
    + (if inPort != 0 then [GetPin(inPort, sample)] else [])
    + [SetPin(clk, false)]
  }

  /** The events of the first `n` steps of a transfer of `value`. */
  function SpiEvents(clk: bv8, outPort: bv8, inPort: bv8, value: bv8, input: nat -> bv8, r0: nat, n: nat): seq<Event>
    requires n <= 8
  {
    if n == 0 then []
    else
      SpiEvents(clk, outPort, inPort, value, input, r0, n - 1)
      + StepEvents(clk, outPort, inPort, BitOf(value, n - 1), SampleAt(input, inPort, r0, n - 1))
  }

  /** `in_value = (in_value << 1) | pin_read(in_port)` over the first `n` samples, in 8-bit arithmetic. */
  function ShiftInAsWritten(input: nat -> bv8, inPort: bv8, r0: nat, n: nat): bv8
  {
    if n == 0 then 0
    else (ShiftInAsWritten(input, inPort, r0, n - 1) << 1) | SampleAt(input, inPort, r0, n - 1)
  }

  /** One bit per sample, set when the sampled pin was high, shifted in MSB first. */
  function ShiftInSamples(input: nat -> bv8, inPort: bv8, r0: nat, n: nat): bv8
  {
    if n == 0 then 0
    else Push(ShiftInSamples(input, inPort, r0, n - 1), SampleAt(input, inPort, r0, n - 1) != 0)
  }

  /** Shifting in one bit per sample, MSB first. */
  function ShiftIn(bits: seq<bool>): bv8
  {
    if |bits| == 0 then 0
    else Push(ShiftIn(bits[..|bits| - 1]), bits[|bits| - 1])
  }

  /** The bit a rising edge of `clk` in `e` clocks in, when the data line is at `level`. */
  function EdgeBits(e: Event, clk: bv8, level: bool): seq<bool>
  {
    if e.SetPin? && e.port == clk && e.high then [level] else []
  }

  /** The level of `data` after `e`. */
  function NextLevel(e: Event, clk: bv8, data: bv8, level: bool): bool
  {
    if e.SetPin? && e.port != clk && e.port == data then e.high else level
  }

  /**
   * What a receiver clocking on rising edges of `clk` sees on `data`:
   * the level `data` was last driven to, at every rising edge.
   */
  function Clocked(events: seq<Event>, clk: bv8, data: bv8, level: bool): seq<bool>
  {
    if |events| == 0 then []
    else EdgeBits(events[0], clk, level) + Clocked(events[1..], clk, data, NextLevel(events[0], clk, data, level))
  }

  /** The level of `data` after `events`. */
  function LevelAfter(events: seq<Event>, clk: bv8, data: bv8, level: bool): bool
  {
    if |events| == 0 then level
    else LevelAfter(events[1..], clk, data, NextLevel(events[0], clk, data, level))
  }

  lemma {:induction false} ClockedAppend(a: seq<Event>, b: seq<Event>, clk: bv8, data: bv8, level: bool)
    ensures Clocked(a + b, clk, data, level)
      == Clocked(a, clk, data, level) + Clocked(b, clk, data, LevelAfter(a, clk, data, level))
    ensures LevelAfter(a + b, clk, data, level) == LevelAfter(b, clk, data, LevelAfter(a, clk, data, level))
  {
    if |a| == 0 {
      assert a + b == b;
    } else {
      assert (a + b)[1..] == a[1..] + b;
      var next := NextLevel(a[0], clk, data, level);
      ClockedAppend(a[1..], b, clk, data, next);
      AppendAssoc(EdgeBits(a[0], clk, level), Clocked(a[1..], clk, data, next), Clocked(b, clk, data, LevelAfter(a, clk, data, level)));
    }
  }

  /** Step `k` clocks out exactly bit `7 - k` and leaves the data pin at it. */
  lemma StepClocksOneBit(clk: bv8, outPort: bv8, inPort: bv8, b: bool, sample: bv8, level: bool)
    requires outPort != 0 && clk != outPort
    ensures Clocked(StepEvents(clk, outPort, inPort, b, sample), clk, outPort, level) == [b]
    ensures LevelAfter(StepEvents(clk, outPort, inPort, b, sample), clk, outPort, level) == b
  {
    var mid: seq<Event> := if inPort != 0 then [GetPin(inPort, sample)] else [];
    var last := mid + [SetPin(clk, false)];
    var rising := [SetPin(clk, true)] + last;
    assert StepEvents(clk, outPort, inPort, b, sample) == [SetPin(outPort, b)] + rising;
    ClockedAppend([SetPin(outPort, b)], rising, clk, outPort, level);
    ClockedAppend([SetPin(clk, true)], last, clk, outPort, b);
    ClockedAppend(mid, [SetPin(clk, false)], clk, outPort, b);
  }

  /**
   * The receiver sees the bits of `value`, most significant first, one on
   * each rising clock edge.
   */
  lemma {:induction false} SpiClocksOutValue(clk: bv8, outPort: bv8, inPort: bv8, value: bv8, input: nat -> bv8, r0: nat, n: nat, level: bool)
    requires n <= 8 && outPort != 0 && clk != outPort
    ensures Clocked(SpiEvents(clk, outPort, inPort, value, input, r0, n), clk, outPort, level) == MsbBits(value)[..n]
  {
    if n > 0 {
      var prev := SpiEvents(clk, outPort, inPort, value, input, r0, n - 1);
      var sample := SampleAt(input, inPort, r0, n - 1);
      var step := StepEvents(clk, outPort, inPort, BitOf(value, n - 1), sample);
      SpiClocksOutValue(clk, outPort, inPort, value, input, r0, n - 1, level);
      ClockedAppend(prev, step, clk, outPort, level);
      StepClocksOneBit(clk, outPort, inPort, BitOf(value, n - 1), sample, LevelAfter(prev, clk, outPort, level));
      TakeSnoc(MsbBits(value), n);
    }
  }

  /**
   * A receiver that shifts in the bit it sees at each rising edge ends up
   * with the byte that was sent.
   */
  lemma SpiDeliversValue(clk: bv8, outPort: bv8, inPort: bv8, value: bv8, input: nat -> bv8, r0: nat, level: bool)
    requires outPort != 0 && clk != outPort
    ensures ShiftIn(Clocked(SpiEvents(clk, outPort, inPort, value, input, r0, 8), clk, outPort, level)) == value
  {
    SpiClocksOutValue(clk, outPort, inPort, value, input, r0, 8, level);
    assert MsbBits(value)[..8] == MsbBits(value);
    ShiftInMsbBits(value);
  }

  lemma ShiftInStep(bits: seq<bool>, n: nat)
    requires 0 < n <= |bits|
    ensures ShiftIn(bits[..n]) == Push(ShiftIn(bits[..n - 1]), bits[n - 1])
  {
    TakeTake(bits, n);
  }

  function BitValue(b: bool): bv8
  {
    if b then 1 else 0
  }

  /** One step of shifting a bit in at the bottom. */
  function Push(acc: bv8, b: bool): bv8
  {
    (acc << 1) | BitValue(b)
  }

  /** Putting the eight bits of a byte back together in order gives the byte. */
  lemma Reassemble(value: bv8)
    ensures Push(Push(Push(Push(Push(Push(Push(Push(0,
      value & 0x80 != 0), value & 0x40 != 0), value & 0x20 != 0), value & 0x10 != 0),
      value & 0x08 != 0), value & 0x04 != 0), value & 0x02 != 0), value & 0x01 != 0) == value
  {
  }

  /** Shifting in the bits of a byte, MSB first, gives the byte back. */
  lemma ShiftInMsbBits(value: bv8)
    ensures ShiftIn(MsbBits(value)) == value
  {
    var b := MsbBits(value);
    ShiftInEight(b);
    Reassemble(value);
  }

  lemma StepMaskNext(k: nat)
    requires k < 8
    ensures StepMask(k) >> 1 == StepMask(k + 1)
  {
  }

  /** The events of one pass, assembled call by call. */
  lemma StepEventsParts(clk: bv8, outPort: bv8, inPort: bv8, bit: bool, sample: bv8,
                        before: seq<Event>, driven: seq<Event>, rising: seq<Event>, sampled: seq<Event>, after: seq<Event>)
    requires driven == before + (if outPort != 0 then [SetPin(outPort, bit)] else [])
    requires rising == driven + [SetPin(clk, true)]
    requires sampled == rising + (if inPort != 0 then [GetPin(inPort, sample)] else [])
    requires after == sampled + [SetPin(clk, false)]
    ensures after == before + StepEvents(clk, outPort, inPort, bit, sample)
  {
  }

  /** Each bit of eight pushed bits can be read back at its place, the first one at the top. */
  lemma Disassemble(b0: bool, b1: bool, b2: bool, b3: bool, b4: bool, b5: bool, b6: bool, b7: bool)
    ensures var v := Push(Push(Push(Push(Push(Push(Push(Push(0, b0), b1), b2), b3), b4), b5), b6), b7);
      (v & 0x80 != 0) == b0 && (v & 0x40 != 0) == b1 && (v & 0x20 != 0) == b2 && (v & 0x10 != 0) == b3
      && (v & 0x08 != 0) == b4 && (v & 0x04 != 0) == b5 && (v & 0x02 != 0) == b6 && (v & 0x01 != 0) == b7
  {
  }

  /**
   * The corrected transfer reads the bus: the bits of the byte it returns,
   * most significant first, are the levels the input pin had in the eight
   * steps.
   */
  lemma TransferReadsSamples(input: nat -> bv8, inPort: bv8, r0: nat)
    ensures MsbBits(ShiftInSamples(input, inPort, r0, 8)) == SampledBits(input, inPort, r0)
  {
    var bits := SampledBits(input, inPort, r0);
    ShiftInSamplesIsShiftIn(input, inPort, r0, 8);
    assert bits[..8] == bits;
    MsbBitsShiftIn(bits);
  }

  /** Whether the input pin was high in each of the eight steps. */
  function SampledBits(input: nat -> bv8, inPort: bv8, r0: nat): (bits: seq<bool>)
    ensures |bits| == 8
  {
    seq(8, k requires 0 <= k < 8 => SampleAt(input, inPort, r0, k) != 0)
  }

  lemma {:induction false} ShiftInSamplesIsShiftIn(input: nat -> bv8, inPort: bv8, r0: nat, n: nat)
    requires n <= 8
    ensures ShiftInSamples(input, inPort, r0, n) == ShiftIn(SampledBits(input, inPort, r0)[..n])
  {
    if n > 0 {
      ShiftInSamplesIsShiftIn(input, inPort, r0, n - 1);
      ShiftInStep(SampledBits(input, inPort, r0), n);
    }
  }

  /** Shifting in eight bits is eight pushes. */
  lemma ShiftInEight(bits: seq<bool>)
    requires |bits| == 8
    ensures ShiftIn(bits)
      == Push(Push(Push(Push(Push(Push(Push(Push(0, bits[0]), bits[1]), bits[2]), bits[3]), bits[4]), bits[5]), bits[6]), bits[7])
  {
    assert ShiftIn(bits[..0]) == 0;
    ShiftInStep(bits, 1);
    ShiftInStep(bits, 2);
    ShiftInStep(bits, 3);
    ShiftInStep(bits, 4);
    ShiftInStep(bits, 5);
    ShiftInStep(bits, 6);
    ShiftInStep(bits, 7);
    ShiftInStep(bits, 8);
    assert bits[..8] == bits;
  }

  /** Reading the bits of a shifted-in byte back, MSB first, gives the bits. */
  lemma MsbBitsShiftIn(bits: seq<bool>)
    requires |bits| == 8
    ensures MsbBits(ShiftIn(bits)) == bits
  {
    var v := ShiftIn(bits);
    assert (v & 0x80 != 0) == bits[0] && (v & 0x40 != 0) == bits[1] && (v & 0x20 != 0) == bits[2]
      && (v & 0x10 != 0) == bits[3] && (v & 0x08 != 0) == bits[4] && (v & 0x04 != 0) == bits[5]
      && (v & 0x02 != 0) == bits[6] && (v & 0x01 != 0) == bits[7] by {
      ShiftInEight(bits);
      Disassemble(bits[0], bits[1], bits[2], bits[3], bits[4], bits[5], bits[6], bits[7]);
    }
    EqualEight(MsbBits(v), bits);
  }

  /**
   * `spi_write`'s `in_value` is right only for an input pin on bit 0, whose
   * mask is 1: then ORing the masked sample is shifting in one bit.
   */
  lemma {:induction false} AsWrittenAgreesOnBitZero(input: nat -> bv8, inPort: bv8, r0: nat, n: nat)
    requires Mask(inPort) == 1
    ensures ShiftInAsWritten(input, inPort, r0, n) == ShiftInSamples(input, inPort, r0, n)
  {
    if n > 0 {
      AsWrittenAgreesOnBitZero(input, inPort, r0, n - 1);
      var sample := SampleAt(input, inPort, r0, n - 1);
      assert sample == 0 || sample == 1;
    }
  }

  /**
   * On the flash's DO pin (0x16, mask 0x40) with the line held high,
   * `spi_write` as written returns 0xC0, while the byte on the line is 0xFF:
   * each ORed 0x40 is shifted out of the top two places.
   */
  lemma AsWrittenLosesBits(r0: nat)
    ensures ShiftInAsWritten(_ => 0xFF, 0x16, r0, 8) == 0xC0
    ensures ShiftInSamples(_ => 0xFF, 0x16, r0, 8) == 0xFF
  {
    var input: nat -> bv8 := _ => 0xFF;
    assert Mask(0x16) == 0x40;
    assert ShiftInAsWritten(input, 0x16, r0, 1) == 0x40;
    assert ShiftInAsWritten(input, 0x16, r0, 2) == 0xC0;
    assert ShiftInAsWritten(input, 0x16, r0, 3) == 0xC0;
    assert ShiftInAsWritten(input, 0x16, r0, 4) == 0xC0;
    assert ShiftInAsWritten(input, 0x16, r0, 5) == 0xC0;
    assert ShiftInAsWritten(input, 0x16, r0, 6) == 0xC0;
    assert ShiftInAsWritten(input, 0x16, r0, 7) == 0xC0;
    assert ShiftInSamples(input, 0x16, r0, 1) == 0x01;
    assert ShiftInSamples(input, 0x16, r0, 2) == 0x03;
    assert ShiftInSamples(input, 0x16, r0, 3) == 0x07;
    assert ShiftInSamples(input, 0x16, r0, 4) == 0x0F;
    assert ShiftInSamples(input, 0x16, r0, 5) == 0x1F;
    assert ShiftInSamples(input, 0x16, r0, 6) == 0x3F;
    assert ShiftInSamples(input, 0x16, r0, 7) == 0x7F;
  }

  /** Pin address 0 selects `ports[0]`, whose register pointers are NULL. */
  lemma PortZeroIsNull()
    ensures !Wired(0)
    ensures forall port: bv8 :: port < 0x10 ==> !Wired(port)
  {
  }

  /**
   * `pin_write` is a read-modify-write of one bit: after it the pin's own
   * bit is the level written, and every other bit of every register is as
   * before.
   */
  lemma SetPinEffect(regs: seq<bv8>, events: seq<Event>, port: bv8, high: bool)
    requires |regs| == 4
    ensures var before := OutAfter(regs, events);
      var after := OutAfter(regs, events + [SetPin(port, high)]);
      Level(after, port) == high
      && after[RegisterSet(port)] & !Mask(port) == before[RegisterSet(port)] & !Mask(port)
      && forall j :: 0 <= j < 4 && j != RegisterSet(port) ==> after[j] == before[j]
  {
    assert (events + [SetPin(port, high)])[..|events|] == events;
  }

  /** No event of `events` drives pin `q`. */
  predicate Leaves(events: seq<Event>, q: bv8)
  {
    forall e :: e in events ==> !(e.SetPin? && SamePin(e.port, q))
  }

  /** No event of `events` changes a direction. */
  predicate KeepsDirections(events: seq<Event>)
  {
    forall e :: e in events ==> !e.SetDir?
  }

  lemma LeavesAppend(a: seq<Event>, b: seq<Event>, q: bv8)
    requires Leaves(a, q) && Leaves(b, q)
    ensures Leaves(a + b, q)
  {
  }

  /** A pin no event drives keeps its level. */
  lemma {:induction false} LeavesLevel(events: seq<Event>, q: bv8, level: bool)
    requires Leaves(events, q)
    ensures LastLevel(events, q, level) == level
  {
    if |events| > 0 {
      var prefix := events[..|events| - 1];
      assert events[|events| - 1] in events;
      assert forall e :: e in prefix ==> e in events;
      LeavesLevel(prefix, q, level);
    }
  }

  /** Without `pin_ddr` events every direction stays as it was. */
  lemma {:induction false} KeepsDirectionsLevel(events: seq<Event>, q: bv8, output: bool)
    requires KeepsDirections(events)
    ensures LastDirection(events, q, output) == output
  {
    if |events| > 0 {
      var prefix := events[..|events| - 1];
      assert events[|events| - 1] in events;
      assert forall e :: e in prefix ==> e in events;
      KeepsDirectionsLevel(prefix, q, output);
    }
  }

  /** A transfer drives only the clock and the data pin, and changes no direction. */
  lemma {:induction false} SpiLeaves(clk: bv8, outPort: bv8, inPort: bv8, value: bv8, input: nat -> bv8, r0: nat, n: nat, q: bv8)
    requires n <= 8 && !SamePin(clk, q) && (outPort == 0 || !SamePin(outPort, q))
    ensures Leaves(SpiEvents(clk, outPort, inPort, value, input, r0, n), q)
    ensures KeepsDirections(SpiEvents(clk, outPort, inPort, value, input, r0, n))
  {
    if n > 0 {
      SpiLeaves(clk, outPort, inPort, value, input, r0, n - 1, q);
    }
  }

  /** A transfer returns with the clock low. */
  lemma SpiEndsClockLow(clk: bv8, outPort: bv8, inPort: bv8, value: bv8, input: nat -> bv8, r0: nat, level: bool)
    ensures !LastLevel(SpiEvents(clk, outPort, inPort, value, input, r0, 8), clk, level)
  {
    var events := SpiEvents(clk, outPort, inPort, value, input, r0, 8);
    assert events[|events| - 1] == SetPin(clk, false);
  }

  /** One more step of a transfer extends its events by that step's events. */
  lemma SpiStepEvents(clk: bv8, outPort: bv8, inPort: bv8, value: bv8, input: nat -> bv8, r0: nat, k: nat, t0: seq<Event>)
    requires k < 8
    ensures t0 + SpiEvents(clk, outPort, inPort, value, input, r0, k)
        + StepEvents(clk, outPort, inPort, BitOf(value, k), SampleAt(input, inPort, r0, k))
      == t0 + SpiEvents(clk, outPort, inPort, value, input, r0, k + 1)
  {
    AppendAssoc(t0, SpiEvents(clk, outPort, inPort, value, input, r0, k),
      StepEvents(clk, outPort, inPort, BitOf(value, k), SampleAt(input, inPort, r0, k)));
  }

  /** The `in_value` update of `spi_write` as written: the masked sample is ORed in. */
  method AccumulateAsWritten(acc: bv8, sample: bv8, ghost input: nat -> bv8, ghost inPort: bv8, ghost r0: nat, ghost k: nat)
    returns (r: bv8)
    requires acc == ShiftInAsWritten(input, inPort, r0, k) && sample == SampleAt(input, inPort, r0, k)
    ensures r == ShiftInAsWritten(input, inPort, r0, k + 1)
  {
    r := (acc << 1) | sample;
  }

  /** The intended `in_value` update: one bit, set when the sample is nonzero. */
  method AccumulateBit(acc: bv8, sample: bv8, ghost input: nat -> bv8, ghost inPort: bv8, ghost r0: nat, ghost k: nat)
    returns (r: bv8)
    requires acc == ShiftInSamples(input, inPort, r0, k) && sample == SampleAt(input, inPort, r0, k)
    ensures r == ShiftInSamples(input, inPort, r0, k + 1)
  {
    r := (acc << 1) | (if sample != 0 then 1 else 0);
  }

  /** The bits of `bytes` in the order a transfer sends them: byte by byte, each MSB first. */
  function BitsOf(bytes: seq<bv8>): (bits: seq<bool>)
    ensures |bits| == 8 * |bytes|
  {
    if |bytes| == 0 then [] else BitsOf(bytes[..|bytes| - 1]) + MsbBits(bytes[|bytes| - 1])
  }

  /** A receiver's view of a bit stream: every eight bits, in order, shifted into a byte. */
  function BytesOf(bits: seq<bool>): (bytes: seq<bv8>)
    requires |bits| % 8 == 0
    ensures |bytes| == |bits| / 8
  {
    if |bits| == 0 then [] else BytesOf(bits[..|bits| - 8]) + [ShiftIn(bits[|bits| - 8..])]
  }

  /** Grouping the sent bits back into bytes gives the bytes that were sent. */
  lemma {:induction false} BytesOfBitsOf(bytes: seq<bv8>)
    ensures BytesOf(BitsOf(bytes)) == bytes
  {
    if |bytes| > 0 {
      var n := |bytes| - 1;
      var bits := BitsOf(bytes);
      BytesOfBitsOf(bytes[..n]);
      assert bits[..|bits| - 8] == BitsOf(bytes[..n]);
      assert bits[|bits| - 8..] == MsbBits(bytes[n]);
      ShiftInMsbBits(bytes[n]);
      TakeSnoc(bytes, |bytes|);
    }
  }

  /** No event of `events` samples an input pin. */
  predicate ReadsNothing(events: seq<Event>)
  {
    forall e :: e in events ==> !e.GetPin?
  }

  /** A transfer without an input pin reads nothing. */
  lemma {:induction false} SpiWithoutInputReadsNothing(clk: bv8, outPort: bv8, value: bv8, input: nat -> bv8, r0: nat, n: nat)
    requires n <= 8
    ensures ReadsNothing(SpiEvents(clk, outPort, 0, value, input, r0, n))
  {
    if n > 0 {
      SpiWithoutInputReadsNothing(clk, outPort, value, input, r0, n - 1);
    }
  }

  /**
   * The MCU's port registers.  `dir` and `out` are PxDIR and PxOUT for the
   * four entries of `ports[]`; `readCount` counts pin reads so far.
   */
  class Mcu {
    var dir: seq<bv8>
    var out: seq<bv8>
    const input: nat -> bv8
    var readCount: nat
    ghost var trace: seq<Event>
    ghost const dir0: seq<bv8>
    ghost const out0: seq<bv8>

    ghost predicate Valid()
      reads this
    {
      |dir0| == 4 && |out0| == 4 && dir == DirAfter(dir0, trace) && out == OutAfter(out0, trace)
    }

    /** The level `port` is driven to now. */
    ghost function Driven(port: bv8): bool
      requires Valid()
      reads this
    {
      Level(out, port)
    }

    /** Whether `port` is an output now. */
    ghost function IsOutput(port: bv8): bool
      requires Valid()
      reads this
    {
      Level(dir, port)
    }

    constructor (dirInit: seq<bv8>, outInit: seq<bv8>, input: nat -> bv8)
      requires |dirInit| == 4 && |outInit| == 4
      ensures Valid()
      ensures dir == dirInit && out == outInit && this.input == input
      ensures readCount == 0 && trace == []
    {
      dir := dirInit;
      out := outInit;
      this.input := input;
      readCount := 0;
      trace := [];
      dir0 := dirInit;
      out0 := outInit;
    }

    /** `pin_ddr`: make `port` an output when `value` is nonzero, an input otherwise. */
    method PinDdr(port: bv8, value: bv8)
      requires Valid() && Wired(port)
      modifies this
      ensures Valid()
      ensures trace == old(trace) + [SetDir(port, value != 0)] && readCount == old(readCount)
    {
      ReplaySnoc(dir0, out0, trace, SetDir(port, value != 0));
      var i := RegisterSet(port);
      var mask := Mask(port);
      dir := dir[i := SetBit(dir[i], mask, value != 0)];
      trace := trace + [SetDir(port, value != 0)];
    }

    /** `pin_write`: drive `port` high when `value` is nonzero, low otherwise. */
    method PinWrite(port: bv8, value: bv8)
      requires Valid() && Wired(port)
      modifies this
      ensures Valid()
      ensures trace == old(trace) + [SetPin(port, value != 0)] && readCount == old(readCount)
    {
      ReplaySnoc(dir0, out0, trace, SetPin(port, value != 0));
      var i := RegisterSet(port);
      var mask := Mask(port);
      out := out[i := SetBit(out[i], mask, value != 0)];
      trace := trace + [SetPin(port, value != 0)];
    }

    /** `pin_read`: the masked input register, so 0 or the pin's mask, not 0 or 1. */
    method PinRead(port: bv8) returns (v: bv8)
      requires Valid() && Wired(port)
      modifies this
      ensures Valid()
      ensures v == input(old(readCount)) & Mask(port)
      ensures v == 0 || v == Mask(port)
      ensures trace == old(trace) + [GetPin(port, v)] && readCount == old(readCount) + 1
    {
      v := input(readCount) & Mask(port);
      ReplaySnoc(dir0, out0, trace, GetPin(port, v));
      readCount := readCount + 1;
      trace := trace + [GetPin(port, v)];
    }

    /**
     * One pass of `spi_write`'s loop on the pins: drive the data pin (when
     * there is one) from `bit`, raise the clock, sample the input pin (when
     * there is one) and lower the clock.  `sample` is what `pin_read`
     * returned, or 0 when nothing was read.
     */
    method ClockBit(clk: bv8, outPort: bv8, inPort: bv8, bit: bv8) returns (sample: bv8)
      requires Valid() && Wired(clk) && (outPort == 0 || Wired(outPort)) && (inPort == 0 || Wired(inPort))
      modifies this
      ensures Valid()
      ensures sample == (if inPort != 0 then input(old(readCount)) & Mask(inPort) else 0)
      ensures trace == old(trace) + StepEvents(clk, outPort, inPort, bit != 0, sample)
      ensures readCount == old(readCount) + (if inPort != 0 then 1 else 0)
    {
      ghost var before := trace;
      if outPort != 0 {
        PinWrite(outPort, bit);
      }
      ghost var driven := trace;
      PinWrite(clk, 1);
      ghost var rising := trace;
      sample := 0;
      if inPort != 0 {
        sample := PinRead(inPort);
      }
      ghost var sampled := trace;
      PinWrite(clk, 0);
      assert trace == before + StepEvents(clk, outPort, inPort, bit != 0, sample) by {
        StepEventsParts(clk, outPort, inPort, bit != 0, sample, before, driven, rising, sampled, trace);
      }
    }

    /**
     * Pass `k` of a transfer of `value`, as one more step on top of the
     * first `k`: the pass whose loop mask is `StepMask(k)`.
     */
    method SpiStep(clk: bv8, outPort: bv8, inPort: bv8, value: bv8, mask: bv8, ghost k: nat, ghost r0: nat, ghost t0: seq<Event>)
      returns (sample: bv8)
      requires Valid() && Wired(clk) && (outPort == 0 || Wired(outPort)) && (inPort == 0 || Wired(inPort))
      requires k < 8 && mask == StepMask(k)
      requires trace == t0 + SpiEvents(clk, outPort, inPort, value, input, r0, k)
      requires readCount == r0 + (if inPort != 0 then k else 0)
      modifies this
      ensures Valid()
      ensures sample == SampleAt(input, inPort, r0, k)
      ensures trace == t0 + SpiEvents(clk, outPort, inPort, value, input, r0, k + 1)
      ensures readCount == r0 + (if inPort != 0 then k + 1 else 0)
    {
      sample := ClockBit(clk, outPort, inPort, value & mask);
      SpiStepEvents(clk, outPort, inPort, value, input, r0, k, t0);
    }

    /**
     * `spi_write` as written: for the masks 0x80 down to 0x01, one pass of
     * drive data, clock high, sample (when `in_port` is nonzero), clock
     * low, with the sample ORed into `in_value` as `pin_read` returns it.
     */
    method SpiWrite(clk: bv8, outPort: bv8, inPort: bv8, value: bv8) returns (inValue: bv8)
      requires Valid() && Wired(clk) && Wired(outPort) && (inPort == 0 || Wired(inPort))
      modifies this
      ensures Valid()
      ensures trace == old(trace) + SpiEvents(clk, outPort, inPort, value, input, old(readCount), 8)
      ensures readCount == old(readCount) + (if inPort != 0 then 8 else 0)
      ensures inValue == ShiftInAsWritten(input, inPort, old(readCount), 8)
      ensures inPort == 0 ==> inValue == 0
    {
      ghost var t0 := trace;
      ghost var r0 := readCount;
      inValue := 0;
      var mask: bv8 := 0x80;
      ghost var k := 0;
      while mask != 0
        invariant 0 <= k <= 8 && mask == StepMask(k)
        invariant Valid()
        invariant trace == t0 + SpiEvents(clk, outPort, inPort, value, input, r0, k)
        invariant readCount == r0 + (if inPort != 0 then k else 0)
        invariant inValue == ShiftInAsWritten(input, inPort, r0, k)
        invariant inPort == 0 ==> inValue == 0 && ShiftInAsWritten(input, inPort, r0, k) == 0
        decreases 8 - k
      {
        StepMaskNext(k);
        var b := SpiStep(clk, outPort, inPort, value, mask, k, r0, t0);
        if inPort != 0 {
          inValue := AccumulateAsWritten(inValue, b, input, inPort, r0, k);
        }
        mask := mask >> 1;
        k := k + 1;
      }
    }

    /**
     * The transfer `spi_write` is meant to be: no data pin is driven when
     * `out_port` is 0, and each sample shifts in one bit, set when the input
     * pin was high.
     */
    method SpiTransfer(clk: bv8, outPort: bv8, inPort: bv8, value: bv8) returns (inValue: bv8)
      requires Valid() && Wired(clk) && (outPort == 0 || Wired(outPort)) && (inPort == 0 || Wired(inPort))
      modifies this
      ensures Valid()
      ensures trace == old(trace) + SpiEvents(clk, outPort, inPort, value, input, old(readCount), 8)
      ensures readCount == old(readCount) + (if inPort != 0 then 8 else 0)
      ensures inValue == ShiftInSamples(input, inPort, old(readCount), 8)
      ensures inPort == 0 ==> inValue == 0
    {
      ghost var t0 := trace;
      ghost var r0 := readCount;
      inValue := 0;
      var mask: bv8 := 0x80;
      ghost var k := 0;
      while mask != 0
        invariant 0 <= k <= 8 && mask == StepMask(k)
        invariant Valid()
        invariant trace == t0 + SpiEvents(clk, outPort, inPort, value, input, r0, k)
        invariant readCount == r0 + (if inPort != 0 then k else 0)
        invariant inValue == ShiftInSamples(input, inPort, r0, k)
        invariant inPort == 0 ==> inValue == 0 && ShiftInSamples(input, inPort, r0, k) == 0
        decreases 8 - k
      {
        StepMaskNext(k);
        var b := SpiStep(clk, outPort, inPort, value, mask, k, r0, t0);
        if inPort != 0 {
          inValue := AccumulateBit(inValue, b, input, inPort, r0, k);
        }
        mask := mask >> 1;
        k := k + 1;
      }
    }
  }
}
