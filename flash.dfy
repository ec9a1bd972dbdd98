/**
 * The SPI flash driver of the tag firmware (src/flash.c): the flash chip
 * hangs off four pins, and `flash_read` sends the READ command (0x03)
 * and a 24-bit address, then clocks in `len` bytes, all while chip select
 * is held low.
 */
module Flash {
  import opened Sequences
  import opened Pins

  const CS: bv8 := 0x30
  const CLK: bv8 := 0x15
  /** Data into the flash chip. */
  const DI: bv8 := 0x17
  /** Data out of the flash chip. */
  const DO: bv8 := 0x16
  const READ: bv8 := 0x03

  /** The four bytes `flash_read` sends: READ, then address bits 23..16, 15..8 and 7..0. */
  function ReadCommand(addr: bv32): (c: seq<bv8>)
    ensures |c| == 4 && c[0] == READ
  {
    [READ, ((addr >> 16) & 0xFF) as bv8, ((addr >> 8) & 0xFF) as bv8, (addr & 0xFF) as bv8]
  }

  /** The address bytes put back together are the low 24 bits of the address. */
  lemma ReadCommandAddress(addr: bv32)
    ensures var c := ReadCommand(addr);
      (c[1] as bv32 << 16) | (c[2] as bv32 << 8) | c[3] as bv32 == addr & 0xFF_FFFF
  {
  }

  /** Each address byte depends only on the low 24 bits of the address. */
  lemma AddressBytesOfLow24(addr: bv32)
    ensures (addr >> 16) & 0xFF == ((addr & 0xFF_FFFF) >> 16) & 0xFF
    ensures (addr >> 8) & 0xFF == ((addr & 0xFF_FFFF) >> 8) & 0xFF
    ensures addr & 0xFF == (addr & 0xFF_FFFF) & 0xFF
  {
  }

  /** Two addresses give the same command exactly when they agree on bits 23..0: bits 31..24 are ignored. */
  lemma ReadCommandIgnoresTopByte(a: bv32, b: bv32)
    ensures ReadCommand(a) == ReadCommand(b) <==> a & 0xFF_FFFF == b & 0xFF_FFFF
  {
    if ReadCommand(a) == ReadCommand(b) {
      ReadCommandAddress(a);
      ReadCommandAddress(b);
    }
    if a & 0xFF_FFFF == b & 0xFF_FFFF {
      AddressBytesOfLow24(a);
      AddressBytesOfLow24(b);
    }
  }

  /** The events of `flash_write_byte(x)`: `x` on DI, nothing read. */
  function WriteEvents(x: bv8, input: nat -> bv8, r0: nat): seq<Event>
  {
    SpiEvents(CLK, DI, 0, x, input, r0, 8)
  }

  /** The events of writing `bytes` one after the other (no reads are made, so the read counter stays `r0`). */
  function WriteAllEvents(bytes: seq<bv8>, input: nat -> bv8, r0: nat): seq<Event>
  {
    if |bytes| == 0 then []
    else WriteAllEvents(bytes[..|bytes| - 1], input, r0) + WriteEvents(bytes[|bytes| - 1], input, r0)
  }

  /** The events of the corrected `flash_read_byte`: eight clocks, sampling DO, driving no data pin. */
  function ReadByteEvents(input: nat -> bv8, r0: nat): seq<Event>
  {
    SpiEvents(CLK, 0, DO, 0, input, r0, 8)
  }

  /** The byte the corrected `flash_read_byte` returns when its first read is read number `r0`. */
  function ReadByteValue(input: nat -> bv8, r0: nat): bv8
  {
    ShiftInSamples(input, DO, r0, 8)
  }

  /** The byte the `j`-th call of `flash_read_byte` returns, counting reads from `r0`. */
  function ReadByteAt(input: nat -> bv8, r0: nat, j: nat): bv8
  {
    ReadByteValue(input, r0 + 8 * j)
  }

  /** The events of the first `n` passes of `flash_read`'s loop. */
  function ReadLoopEvents(input: nat -> bv8, r0: nat, n: nat): seq<Event>
  {
    if n == 0 then []
    else ReadLoopEvents(input, r0, n - 1) + ReadByteEvents(input, r0 + 8 * (n - 1))
  }

  /** The events of `flash_read(addr, buf, len)`. */
  function ReadEvents(addr: bv32, input: nat -> bv8, r0: nat, len: nat): seq<Event>
  {
    [SetPin(CS, false)] + WriteAllEvents(ReadCommand(addr), input, r0) + ReadLoopEvents(input, r0, len) + [SetPin(CS, true)]
  }

  /** The events of `flash_init`. */
  function InitEvents(): seq<Event>
  {
    [SetDir(CS, true), SetDir(CLK, true), SetDir(DI, true), SetDir(DO, false), SetPin(CS, true)]
  }

  /**
   * `flash_init`: CS, CLK and DI become outputs and DO an input, then CS
   * is driven high, deselecting the chip.
   */
  method FlashInit(m: Mcu)
    requires m.Valid()
    modifies m
    ensures m.Valid()
    ensures m.trace == old(m.trace) + InitEvents() && m.readCount == old(m.readCount)
  {
    ghost var t0 := m.trace;
    m.PinDdr(CS, 1);
    m.PinDdr(CLK, 1);
    m.PinDdr(DI, 1);
    m.PinDdr(DO, 0);
    m.PinWrite(CS, 1);
    assert m.trace == t0 + InitEvents();
  }

  /** What `flash_init`'s events leave behind, whatever came before. */
  lemma InitLevels(dir0: seq<bv8>, out0: seq<bv8>, t0: seq<Event>)
    requires |dir0| == 4 && |out0| == 4
    ensures var t := t0 + InitEvents();
      Level(DirAfter(dir0, t), CS) && Level(DirAfter(dir0, t), CLK) && Level(DirAfter(dir0, t), DI)
      && !Level(DirAfter(dir0, t), DO) && Level(OutAfter(out0, t), CS)
  {
    var t := t0 + InitEvents();
    InitDirections();
    DirLevel(dir0, t, CS);
    LastDirectionAppend(t0, InitEvents(), CS, Level(dir0, CS));
    DirLevel(dir0, t, CLK);
    LastDirectionAppend(t0, InitEvents(), CLK, Level(dir0, CLK));
    DirLevel(dir0, t, DI);
    LastDirectionAppend(t0, InitEvents(), DI, Level(dir0, DI));
    DirLevel(dir0, t, DO);
    LastDirectionAppend(t0, InitEvents(), DO, Level(dir0, DO));
    OutLevel(out0, t, CS);
    LastLevelAppend(t0, InitEvents(), CS, Level(out0, CS));
  }

  /** The last direction and level `flash_init` gives each of its pins. */
  lemma InitDirections()
    ensures forall output :: LastDirection(InitEvents(), CS, output)
    ensures forall output :: LastDirection(InitEvents(), CLK, output)
    ensures forall output :: LastDirection(InitEvents(), DI, output)
    ensures forall output :: !LastDirection(InitEvents(), DO, output)
    ensures forall level :: LastLevel(InitEvents(), CS, level)
  {
    var e := InitEvents();
    var e4, e3, e2, e1 := e[..4], e[..3], e[..2], e[..1];
    assert e4[..3] == e3 && e3[..2] == e2 && e2[..1] == e1 && e1[..0] == [];
    forall output: bool
      ensures LastDirection(e, CS, output) && LastDirection(e, CLK, output)
      ensures LastDirection(e, DI, output) && !LastDirection(e, DO, output)
    {
      assert LastDirection(e, CS, output) == LastDirection(e4, CS, output) == LastDirection(e3, CS, output)
        == LastDirection(e2, CS, output) == LastDirection(e1, CS, output);
      assert LastDirection(e, CLK, output) == LastDirection(e4, CLK, output) == LastDirection(e3, CLK, output)
        == LastDirection(e2, CLK, output);
      assert LastDirection(e, DI, output) == LastDirection(e4, DI, output) == LastDirection(e3, DI, output);
      assert LastDirection(e, DO, output) == LastDirection(e4, DO, output);
    }
  }

  /** `flash_write_byte(x)`: `spi_write` on CLK and DI, with no input pin. */
  method FlashWriteByte(m: Mcu, x: bv8)
    requires m.Valid()
    modifies m
    ensures m.Valid()
    ensures m.trace == old(m.trace) + WriteEvents(x, m.input, old(m.readCount)) && m.readCount == old(m.readCount)
  {
    var ignored := m.SpiWrite(CLK, DI, 0, x);
  }

  /**
   * `flash_read_byte`, corrected: eight clocks sampling DO with no data
   * pin driven, one bit per sample (see the findings on `SpiWrite`).
   */
  method FlashReadByte(m: Mcu) returns (b: bv8)
    requires m.Valid()
    modifies m
    ensures m.Valid()
    ensures b == ReadByteValue(m.input, old(m.readCount))
    ensures m.trace == old(m.trace) + ReadByteEvents(m.input, old(m.readCount))
    ensures m.readCount == old(m.readCount) + 8
  {
    b := m.SpiTransfer(CLK, 0, DO, 0);
  }

  /** Sending the four command bytes, one `flash_write_byte` each. */
  method SendCommand(m: Mcu, addr: bv32)
    requires m.Valid()
    modifies m
    ensures m.Valid()
    ensures m.trace == old(m.trace) + WriteAllEvents(ReadCommand(addr), m.input, old(m.readCount))
    ensures m.readCount == old(m.readCount)
  {
    ghost var t0 := m.trace;
    ghost var c := ReadCommand(addr);
    FlashWriteByte(m, READ);
    FlashWriteByte(m, ((addr >> 16) & 0xFF) as bv8);
    FlashWriteByte(m, ((addr >> 8) & 0xFF) as bv8);
    FlashWriteByte(m, (addr & 0xFF) as bv8);
    assert m.trace == t0 + WriteAllEvents(c, m.input, m.readCount) by {
      WriteAllFour(c, m.input, m.readCount, t0);
    }
  }

  lemma WriteAllFour(c: seq<bv8>, input: nat -> bv8, r0: nat, t0: seq<Event>)
    requires |c| == 4
    ensures t0 + WriteAllEvents(c, input, r0)
      == t0 + WriteEvents(c[0], input, r0) + WriteEvents(c[1], input, r0) + WriteEvents(c[2], input, r0) + WriteEvents(c[3], input, r0)
  {
    var c3, c2, c1 := c[..3], c[..2], c[..1];
    assert c3[..2] == c2 && c2[..1] == c1 && c1[..0] == [];
    assert WriteAllEvents(c1, input, r0) == WriteEvents(c[0], input, r0);
    assert WriteAllEvents(c2, input, r0) == WriteAllEvents(c1, input, r0) + WriteEvents(c[1], input, r0);
    assert WriteAllEvents(c3, input, r0) == WriteAllEvents(c2, input, r0) + WriteEvents(c[2], input, r0);
    assert WriteAllEvents(c, input, r0) == WriteAllEvents(c3, input, r0) + WriteEvents(c[3], input, r0);
    AppendFive(t0, WriteEvents(c[0], input, r0), WriteEvents(c[1], input, r0), WriteEvents(c[2], input, r0), WriteEvents(c[3], input, r0));
  }

  /**
   * `flash_read(addr, buf, len)`: select the chip, send READ and the
   * address, store one byte per index of `buf[0..len)`, deselect.
   */
  method FlashRead(m: Mcu, addr: bv32, buf: array<bv8>, len: nat)
    requires m.Valid() && len < 256 && len <= buf.Length
    modifies m, buf
    ensures m.Valid()
    ensures m.trace == old(m.trace) + ReadEvents(addr, m.input, old(m.readCount), len)
    ensures m.readCount == old(m.readCount) + 8 * len
    ensures forall j :: 0 <= j < len ==> buf[j] == ReadByteAt(m.input, old(m.readCount), j)
    ensures forall j :: len <= j < buf.Length ==> buf[j] == old(buf[j])
  {
    ghost var t0 := m.trace;
    ghost var r0 := m.readCount;
    m.PinWrite(CS, 0);
    SendCommand(m, addr);
    ghost var t1 := m.trace;
    var i := 0;
    while i < len
      invariant 0 <= i <= len
      invariant m.Valid()
      invariant m.trace == t1 + ReadLoopEvents(m.input, r0, i)
      invariant m.readCount == r0 + 8 * i
      invariant forall j :: 0 <= j < i ==> buf[j] == ReadByteAt(m.input, r0, j)
      invariant forall j :: len <= j < buf.Length ==> buf[j] == old(buf[j])
    {
      var b := ReadStep(m, i, r0, t1);
      buf[i] := b;
      i := i + 1;
    }
    ghost var stored := buf[..];
    m.PinWrite(CS, 1);
    assert buf[..] == stored;
    assert m.trace == t0 + ReadEvents(addr, m.input, r0, len) by {
      AppendFive(t0, [SetPin(CS, false)], WriteAllEvents(ReadCommand(addr), m.input, r0),
        ReadLoopEvents(m.input, r0, len), [SetPin(CS, true)]);
    }
  }

  /** One pass of `flash_read`'s loop: the byte that `buf[i] = flash_read_byte()` stores. */
  method ReadStep(m: Mcu, i: nat, ghost r0: nat, ghost t1: seq<Event>) returns (b: bv8)
    requires m.Valid()
    requires m.trace == t1 + ReadLoopEvents(m.input, r0, i) && m.readCount == r0 + 8 * i
    modifies m
    ensures m.Valid()
    ensures m.trace == t1 + ReadLoopEvents(m.input, r0, i + 1) && m.readCount == r0 + 8 * (i + 1)
    ensures b == ReadByteAt(m.input, r0, i)
  {
    b := FlashReadByte(m);
    AppendAssoc(t1, ReadLoopEvents(m.input, r0, i), ReadByteEvents(m.input, r0 + 8 * i));
  }

  /** The bits the flash chip clocks in on DI while a sequence of bytes is written. */
  lemma {:induction false} WriteAllClocksBits(bytes: seq<bv8>, input: nat -> bv8, r0: nat, level: bool)
    ensures Clocked(WriteAllEvents(bytes, input, r0), CLK, DI, level) == BitsOf(bytes)
  {
    if |bytes| > 0 {
      var n := |bytes| - 1;
      var prev := WriteAllEvents(bytes[..n], input, r0);
      WriteAllClocksBits(bytes[..n], input, r0, level);
      ClockedAppend(prev, WriteEvents(bytes[n], input, r0), CLK, DI, level);
      SpiClocksOutValue(CLK, DI, 0, bytes[n], input, r0, 8, LevelAfter(prev, CLK, DI, level));
      assert MsbBits(bytes[n])[..8] == MsbBits(bytes[n]);
    }
  }

  /**
   * The flash chip receives the READ command and the address: grouping
   * what it clocks in on DI into bytes gives exactly `ReadCommand(addr)`.
   */
  lemma FlashReceivesCommand(addr: bv32, input: nat -> bv8, r0: nat, level: bool)
    ensures var bits := Clocked(WriteAllEvents(ReadCommand(addr), input, r0), CLK, DI, level);
      |bits| % 8 == 0 && BytesOf(bits) == ReadCommand(addr)
  {
    WriteAllClocksBits(ReadCommand(addr), input, r0, level);
    BytesOfBitsOf(ReadCommand(addr));
  }

  lemma {:induction false} WriteAllLeavesCs(bytes: seq<bv8>, input: nat -> bv8, r0: nat)
    ensures Leaves(WriteAllEvents(bytes, input, r0), CS)
  {
    if |bytes| > 0 {
      WriteAllLeavesCs(bytes[..|bytes| - 1], input, r0);
      SpiLeaves(CLK, DI, 0, bytes[|bytes| - 1], input, r0, 8, CS);
      LeavesAppend(WriteAllEvents(bytes[..|bytes| - 1], input, r0), WriteEvents(bytes[|bytes| - 1], input, r0), CS);
    }
  }

  lemma {:induction false} ReadLoopLeavesCs(input: nat -> bv8, r0: nat, n: nat)
    ensures Leaves(ReadLoopEvents(input, r0, n), CS)
  {
    if n > 0 {
      ReadLoopLeavesCs(input, r0, n - 1);
      SpiLeaves(CLK, 0, DO, 0, input, r0 + 8 * (n - 1), 8, CS);
      LeavesAppend(ReadLoopEvents(input, r0, n - 1), ReadByteEvents(input, r0 + 8 * (n - 1)), CS);
    }
  }

  /**
   * `flash_read` selects the chip before its first byte and deselects it
   * after its last: the first event drives CS low, the last drives it
   * high, and nothing in between touches CS.
   */
  lemma ReadFramedByCs(addr: bv32, input: nat -> bv8, r0: nat, len: nat, level: bool)
    ensures var e := ReadEvents(addr, input, r0, len);
      e[0] == SetPin(CS, false) && e[|e| - 1] == SetPin(CS, true)
      && Leaves(e[1..|e| - 1], CS) && LastLevel(e, CS, level)
  {
    var e := ReadEvents(addr, input, r0, len);
    var body := WriteAllEvents(ReadCommand(addr), input, r0) + ReadLoopEvents(input, r0, len);
    assert e == [SetPin(CS, false)] + body + [SetPin(CS, true)];
    assert e[1..|e| - 1] == body;
    WriteAllLeavesCs(ReadCommand(addr), input, r0);
    ReadLoopLeavesCs(input, r0, len);
    LeavesAppend(WriteAllEvents(ReadCommand(addr), input, r0), ReadLoopEvents(input, r0, len), CS);
  }

  /** Reading a byte drives nothing but the clock: DI and CS keep their levels. */
  lemma ReadByteDrivesOnlyClock(input: nat -> bv8, r0: nat, q: bv8)
    requires !SamePin(q, CLK)
    ensures Leaves(ReadByteEvents(input, r0), q)
  {
    SpiLeaves(CLK, 0, DO, 0, input, r0, 8, q);
  }
}
