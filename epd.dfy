/**
 * The e-paper panel driver of the tag firmware (src/epd.c).  The panel's
 * controller is write-only from here: every byte is framed by its chip
 * select, bit-banged MSB first on CLK and DATA, and tagged by the DC pin
 * as a command (DC low) or as data (DC high).  Each driver routine is an
 * ordered list of such commands and data bytes, so the model describes
 * what a routine sends as a list of `Op`s and proves that the
 * controller, reading the pins, receives exactly that list.
 */
module Epd {
  import opened Sequences
  import opened Pins

  const POWER: bv8 := 0x31
  const CS: bv8 := 0x34
  const DC: bv8 := 0x35
  const RESET: bv8 := 0x36
  const BUSY: bv8 := 0x25
  const CLK: bv8 := 0x23
  const DATA: bv8 := 0x24

  /** A C `uint16_t`. */
  type uint16 = v: int | 0 <= v < 0x1_0000

  /** `EPD_WIDTH` and `EPD_HEIGHT`, in pixels. */
  const WIDTH: uint16 := 122
  const HEIGHT: uint16 := 250

  /** One byte for the controller: a command (DC low) or a data byte (DC high). */
  datatype Op = Command(value: bv8) | Data(value: bv8)

  /** The op a byte received with DC at level `dc` stands for. */
  function Tagged(dc: bool, value: bv8): Op
  {
    if dc then Data(value) else Command(value)
  }

  /** Data ops for `bytes`, in order. */
  function DataOps(bytes: seq<bv8>): (ops: seq<Op>)
    ensures |ops| == |bytes|
    ensures forall i :: 0 <= i < |bytes| ==> ops[i] == Data(bytes[i])
  {
    seq(|bytes|, i requires 0 <= i < |bytes| => Data(bytes[i]))
  }

  // ---------------------------------------------------------------------------
  // Events on the pins

  /** The events of `epd_write(v)`: CS low, `v` on DATA clocked by CLK, CS high. */
  function WriteEvents(v: bv8, input: nat -> bv8, r0: nat): seq<Event>
  {
    [SetPin(CS, false)] + SpiEvents(CLK, DATA, 0, v, input, r0, 8) + [SetPin(CS, true)]
  }

  /** The events of `epd_command` or `epd_data`: DC set for the op, then the framed byte. */
  function OpEvents(op: Op, input: nat -> bv8, r0: nat): seq<Event>
  {
    [SetPin(DC, op.Data?)] + WriteEvents(op.value, input, r0)
  }

  /** The events of sending `ops` one after the other (nothing is read, so `r0` stays). */
  function OpsEvents(ops: seq<Op>, input: nat -> bv8, r0: nat): seq<Event>
  {
    if |ops| == 0 then []
    else OpsEvents(ops[..|ops| - 1], input, r0) + OpEvents(ops[|ops| - 1], input, r0)
  }

  /** One more op extends the events of the ops before it. */
  lemma OpsEventsSnoc(t0: seq<Event>, ops: seq<Op>, op: Op, input: nat -> bv8, r0: nat)
    ensures t0 + OpsEvents(ops, input, r0) + OpEvents(op, input, r0) == t0 + OpsEvents(ops + [op], input, r0)
  {
    assert (ops + [op])[..|ops|] == ops;
    AppendAssoc(t0, OpsEvents(ops, input, r0), OpEvents(op, input, r0));
  }

  lemma {:induction false} OpsEventsAppend(a: seq<Op>, b: seq<Op>, input: nat -> bv8, r0: nat)
    ensures OpsEvents(a + b, input, r0) == OpsEvents(a, input, r0) + OpsEvents(b, input, r0)
    decreases |b|
  {
    if |b| == 0 {
      assert a + b == a;
    } else {
      var n := |b| - 1;
      assert (a + b)[..|a + b| - 1] == a + b[..n];
      OpsEventsAppend(a, b[..n], input, r0);
      AppendAssoc(OpsEvents(a, input, r0), OpsEvents(b[..n], input, r0), OpEvents(b[n], input, r0));
    }
  }

  /** A single op's events are the events of the one-op list. */
  lemma OpsEventsOne(t0: seq<Event>, o: Op, input: nat -> bv8, r0: nat)
    ensures t0 + OpEvents(o, input, r0) == t0 + OpsEvents([o], input, r0)
  {
    assert [o][..0] == [];
  }

  /** Three more ops, sent one call after another, extend the events of the ops before them. */
  lemma Chain3(t0: seq<Event>, ops: seq<Op>, o0: Op, o1: Op, o2: Op, input: nat -> bv8, r0: nat)
    ensures t0 + OpsEvents(ops, input, r0) + OpEvents(o0, input, r0) + OpEvents(o1, input, r0) + OpEvents(o2, input, r0)
      == t0 + OpsEvents(ops + [o0] + [o1] + [o2], input, r0)
  {
    OpsEventsSnoc(t0, ops, o0, input, r0);
    OpsEventsSnoc(t0, ops + [o0], o1, input, r0);
    assert t0 + OpsEvents(ops, input, r0) + OpEvents(o0, input, r0) + OpEvents(o1, input, r0)
      == t0 + OpsEvents(ops + [o0] + [o1], input, r0);
    OpsEventsSnoc(t0, ops + [o0] + [o1], o2, input, r0);
  }

  /** The same for seven ops. */
  lemma Chain7(t0: seq<Event>, ops: seq<Op>, o0: Op, o1: Op, o2: Op, o3: Op, o4: Op, o5: Op, o6: Op, input: nat -> bv8, r0: nat)
    ensures t0 + OpsEvents(ops, input, r0) + OpEvents(o0, input, r0) + OpEvents(o1, input, r0) + OpEvents(o2, input, r0)
      + OpEvents(o3, input, r0) + OpEvents(o4, input, r0) + OpEvents(o5, input, r0) + OpEvents(o6, input, r0)
      == t0 + OpsEvents(ops + [o0] + [o1] + [o2] + [o3] + [o4] + [o5] + [o6], input, r0)
  {
    Chain3(t0, ops, o0, o1, o2, input, r0);
    Chain3(t0, ops + [o0] + [o1] + [o2], o3, o4, o5, input, r0);
    OpsEventsSnoc(t0, ops + [o0] + [o1] + [o2] + [o3] + [o4] + [o5], o6, input, r0);
  }

  // ---------------------------------------------------------------------------
  // The controller's side of the bus

  /**
   * What the controller keeps while it watches the pins: the DC and DATA
   * levels, whether it is selected, the bits of the byte in progress and
   * the ops received so far.
   */
  datatype Panel = Panel(dc: bool, data: bool, selected: bool, bits: seq<bool>, received: seq<Op>)

  /** A deselected controller with no byte in progress. */
  predicate Idle(p: Panel)
  {
    !p.selected && p.bits == []
  }

  /**
   * The controller's reaction to one event: CS low selects it and starts a
   * new byte, CS high deselects it and drops a partial byte, and while
   * selected every rising CLK edge shifts in DATA; the eighth bit completes
   * a byte, which DC tags as a command or data.
   */
  function PanelStep(p: Panel, e: Event): Panel
  {
    if !e.SetPin? then p
    else if e.port == DC then p.(dc := e.high)
    else if e.port == DATA then p.(data := e.high)
    else if e.port == CS then p.(selected := !e.high, bits := [])
    else if e.port == CLK && e.high && p.selected then
      if |p.bits| == 7 then p.(bits := [], received := p.received + [Tagged(p.dc, ShiftIn(p.bits + [p.data]))])
      else p.(bits := p.bits + [p.data])
    else p
  }

  /** The controller after watching `events`, in order. */
  function PanelRun(p: Panel, events: seq<Event>): Panel
    decreases |events|
  {
    if |events| == 0 then p else PanelRun(PanelStep(p, events[0]), events[1..])
  }

  lemma {:induction false} PanelRunAppend(p: Panel, a: seq<Event>, b: seq<Event>)
    ensures PanelRun(p, a + b) == PanelRun(PanelRun(p, a), b)
    decreases |a|
  {
    if |a| == 0 {
      assert a + b == b;
    } else {
      assert (a + b)[1..] == a[1..] + b;
      PanelRunAppend(PanelStep(p, a[0]), a[1..], b);
    }
  }

  /**
   * While selected, the first `n` steps of a transfer of `v` leave the
   * first `n` bits of `v` in progress; the eighth completes the byte.
   */
  lemma {:induction false} PanelReceivesBits(p: Panel, v: bv8, input: nat -> bv8, r0: nat, n: nat)
    requires p.selected && p.bits == [] && n <= 8
    ensures PanelRun(p, SpiEvents(CLK, DATA, 0, v, input, r0, n)) ==
      if n == 0 then p
      else if n < 8 then p.(data := BitOf(v, n - 1), bits := MsbBits(v)[..n])
      else p.(data := BitOf(v, 7), received := p.received + [Tagged(p.dc, ShiftIn(MsbBits(v)))])
  {
    if n > 0 {
      var prev := SpiEvents(CLK, DATA, 0, v, input, r0, n - 1);
      var b := BitOf(v, n - 1);
      var step := StepEvents(CLK, DATA, 0, b, SampleAt(input, 0, r0, n - 1));
      assert step == [SetPin(DATA, b), SetPin(CLK, true), SetPin(CLK, false)];
      PanelReceivesBits(p, v, input, r0, n - 1);
      PanelRunAppend(p, prev, step);
      var q := PanelRun(p, prev);
      assert q.selected && q.bits == MsbBits(v)[..n - 1] && q.dc == p.dc && q.received == p.received;
      var q1 := q.(data := b);
      var q2 := if n == 8 then q1.(bits := [], received := q.received + [Tagged(q.dc, ShiftIn(q.bits + [b]))])
        else q1.(bits := q.bits + [b]);
      var rest1, rest2 := [SetPin(CLK, true), SetPin(CLK, false)], [SetPin(CLK, false)];
      assert step[1..] == rest1 && rest1[1..] == rest2 && rest2[1..] == [];
      assert PanelRun(q, step) == PanelRun(q1, rest1) == PanelRun(q2, rest2) == PanelRun(q2, []) == q2;
      TakeSnoc(MsbBits(v), n);
      if n == 8 {
        assert MsbBits(v)[..8] == MsbBits(v);
      }
    }
  }

  /** An idle controller receives exactly the op `epd_command` or `epd_data` sends, and is idle again. */
  lemma PanelReceivesOp(p: Panel, op: Op, input: nat -> bv8, r0: nat)
    requires Idle(p)
    ensures var q := PanelRun(p, OpEvents(op, input, r0));
      Idle(q) && q.received == p.received + [op] && q.dc == op.Data?
  {
    var spi := SpiEvents(CLK, DATA, 0, op.value, input, r0, 8);
    var p1 := p.(dc := op.Data?);
    var p2 := p1.(selected := true, bits := []);
    assert OpEvents(op, input, r0) == [SetPin(DC, op.Data?)] + [SetPin(CS, false)] + spi + [SetPin(CS, true)];
    PanelRunAppend(p, [SetPin(DC, op.Data?)] + [SetPin(CS, false)] + spi, [SetPin(CS, true)]);
    PanelRunAppend(p, [SetPin(DC, op.Data?)] + [SetPin(CS, false)], spi);
    PanelRunAppend(p, [SetPin(DC, op.Data?)], [SetPin(CS, false)]);
    assert PanelRun(p, [SetPin(DC, op.Data?)]) == p1;
    assert PanelRun(p1, [SetPin(CS, false)]) == p2;
    PanelReceivesBits(p2, op.value, input, r0, 8);
    ShiftInMsbBits(op.value);
  }

  /**
   * An idle controller watching the events of `ops` receives exactly
   * `ops`, each byte with the command/data tag it was sent with.
   */
  lemma {:induction false} PanelReceivesOps(p: Panel, ops: seq<Op>, input: nat -> bv8, r0: nat)
    requires Idle(p)
    ensures Idle(PanelRun(p, OpsEvents(ops, input, r0)))
    ensures PanelRun(p, OpsEvents(ops, input, r0)).received == p.received + ops
  {
    if |ops| > 0 {
      var n := |ops| - 1;
      PanelReceivesOps(p, ops[..n], input, r0);
      PanelRunAppend(p, OpsEvents(ops[..n], input, r0), OpEvents(ops[n], input, r0));
      PanelReceivesOp(PanelRun(p, OpsEvents(ops[..n], input, r0)), ops[n], input, r0);
      TakeSnoc(ops, |ops|);
    }
  }

  /** Sending ops only writes: no pin is read. */
  lemma {:induction false} OpsReadNothing(ops: seq<Op>, input: nat -> bv8, r0: nat)
    ensures ReadsNothing(OpsEvents(ops, input, r0))
  {
    if |ops| > 0 {
      var n := |ops| - 1;
      OpsReadNothing(ops[..n], input, r0);
      SpiWithoutInputReadsNothing(CLK, DATA, ops[n].value, input, r0, 8);
      var last := OpEvents(ops[n], input, r0);
      assert forall e :: e in last ==> e in SpiEvents(CLK, DATA, 0, ops[n].value, input, r0, 8) || e.SetPin?;
    }
  }

  // ---------------------------------------------------------------------------
  // The byte-level routines

  /** `epd_write(value)`: one byte inside a chip-select frame. */
  method EpdWrite(m: Mcu, value: bv8)
    requires m.Valid()
    modifies m
    ensures m.Valid()
    ensures m.trace == old(m.trace) + WriteEvents(value, m.input, old(m.readCount)) && m.readCount == old(m.readCount)
  {
    ghost var t0 := m.trace;
    m.PinWrite(CS, 0);
    var ignored := m.SpiWrite(CLK, DATA, 0, value);
    m.PinWrite(CS, 1);
    AppendAssoc(t0, [SetPin(CS, false)], SpiEvents(CLK, DATA, 0, value, m.input, m.readCount, 8));
    AppendAssoc(t0, [SetPin(CS, false)] + SpiEvents(CLK, DATA, 0, value, m.input, m.readCount, 8), [SetPin(CS, true)]);
  }

  /** `epd_command(cmd)`: DC low, then the byte. */
  method EpdCommand(m: Mcu, cmd: bv8)
    requires m.Valid()
    modifies m
    ensures m.Valid()
    ensures m.trace == old(m.trace) + OpEvents(Command(cmd), m.input, old(m.readCount)) && m.readCount == old(m.readCount)
  {
    ghost var t0 := m.trace;
    m.PinWrite(DC, 0);
    EpdWrite(m, cmd);
    AppendAssoc(t0, [SetPin(DC, false)], WriteEvents(cmd, m.input, m.readCount));
  }

  /** `epd_data(data)`: DC high, then the byte. */
  method EpdData(m: Mcu, data: bv8)
    requires m.Valid()
    modifies m
    ensures m.Valid()
    ensures m.trace == old(m.trace) + OpEvents(Data(data), m.input, old(m.readCount)) && m.readCount == old(m.readCount)
  {
    ghost var t0 := m.trace;
    m.PinWrite(DC, 1);
    EpdWrite(m, data);
    AppendAssoc(t0, [SetPin(DC, true)], WriteEvents(data, m.input, m.readCount));
  }

  /**
   * `epd_data(b)` as one more byte of a stream of data bytes: if the trace
   * so far is `t0` followed by the data ops of `sent`, it becomes `t0`
   * followed by the data ops of `sent + [b]`.
   */
  method StreamData(m: Mcu, b: bv8, ghost t0: seq<Event>, ghost sent: seq<bv8>)
    requires m.Valid() && m.trace == t0 + OpsEvents(DataOps(sent), m.input, m.readCount)
    modifies m
    ensures m.Valid() && m.readCount == old(m.readCount)
    ensures m.trace == t0 + OpsEvents(DataOps(sent + [b]), m.input, m.readCount)
  {
    assert DataOps(sent + [b]) == DataOps(sent) + [Data(b)];
    OpsEventsSnoc(t0, DataOps(sent), Data(b), m.input, m.readCount);
    EpdData(m, b);
  }

  // ---------------------------------------------------------------------------
  // Setup, reset and power

  /** The events of `epd_setup`: the control and bus pins become outputs, BUSY an input. */
  function SetupEvents(): seq<Event>
  {
    [SetDir(RESET, true), SetDir(POWER, true), SetDir(CS, true), SetDir(DC, true),
     SetDir(CLK, true), SetDir(DATA, true), SetDir(BUSY, false)]
  }

  lemma SetupSteps(t0: seq<Event>)
    ensures t0 + [SetDir(RESET, true)] + [SetDir(POWER, true)] + [SetDir(CS, true)] + [SetDir(DC, true)]
      + [SetDir(CLK, true)] + [SetDir(DATA, true)] + [SetDir(BUSY, false)] == t0 + SetupEvents()
  {
  }

  method EpdSetup(m: Mcu)
    requires m.Valid()
    modifies m
    ensures m.Valid()
    ensures m.trace == old(m.trace) + SetupEvents() && m.readCount == old(m.readCount)
  {
    SetupSteps(m.trace);
    m.PinDdr(RESET, 1);
    m.PinDdr(POWER, 1);
    m.PinDdr(CS, 1);
    m.PinDdr(DC, 1);
    m.PinDdr(CLK, 1);
    m.PinDdr(DATA, 1);
    m.PinDdr(BUSY, 0);
  }

  /** The events of `epd_reset` without its delays and its wait for BUSY. */
  function ResetEvents(input: nat -> bv8, r0: nat): seq<Event>
  {
    [SetPin(POWER, false)] + [SetPin(RESET, false)] + [SetPin(RESET, true)] + OpEvents(Command(0x12), input, r0)
  }

  /** `epd_reset`: power on, pulse RESET low, then the software reset command 0x12. */
  method EpdReset(m: Mcu)
    requires m.Valid()
    modifies m
    ensures m.Valid()
    ensures m.trace == old(m.trace) + ResetEvents(m.input, old(m.readCount)) && m.readCount == old(m.readCount)
  {
    AppendFive(m.trace, [SetPin(POWER, false)], [SetPin(RESET, false)], [SetPin(RESET, true)], OpEvents(Command(0x12), m.input, m.readCount));
    m.PinWrite(POWER, 0);
    m.PinWrite(RESET, 0);
    m.PinWrite(RESET, 1);
    EpdCommand(m, 0x12);
  }

  /** The ops of `epd_shutdown`: deep sleep mode 1. */
  function ShutdownOps(): seq<Op>
  {
    [Command(0x10)] + [Data(0x01)]
  }

  /** The events of `epd_shutdown`: the deep-sleep ops, then RESET, CS and POWER high. */
  function ShutdownEvents(input: nat -> bv8, r0: nat): seq<Event>
  {
    OpsEvents(ShutdownOps(), input, r0) + [SetPin(RESET, true)] + [SetPin(CS, true)] + [SetPin(POWER, true)]
  }

  method EpdShutdown(m: Mcu)
    requires m.Valid()
    modifies m
    ensures m.Valid()
    ensures m.trace == old(m.trace) + ShutdownEvents(m.input, old(m.readCount)) && m.readCount == old(m.readCount)
  {
    ghost var t0 := m.trace;
    ghost var r0 := m.readCount;
    AppendToEmpty([Command(0x10)]);
    AppendFive(t0, OpsEvents(ShutdownOps(), m.input, r0), [SetPin(RESET, true)], [SetPin(CS, true)], [SetPin(POWER, true)]);
    EpdCommand(m, 0x10);
    OpsEventsSnoc(t0, [], Command(0x10), m.input, r0);
    EpdData(m, 0x01);
    OpsEventsSnoc(t0, [Command(0x10)], Data(0x01), m.input, r0);
    m.PinWrite(RESET, 1);
    m.PinWrite(CS, 1);
    m.PinWrite(POWER, 1);
  }

  /** The last level the three final writes of `epd_shutdown` give RESET, CS and POWER. */
  lemma ShutdownTail(level: bool)
    ensures var tail := [SetPin(RESET, true)] + [SetPin(CS, true)] + [SetPin(POWER, true)];
      LastLevel(tail, RESET, level) && LastLevel(tail, CS, level) && LastLevel(tail, POWER, level)
  {
    var tail := [SetPin(RESET, true)] + [SetPin(CS, true)] + [SetPin(POWER, true)];
    assert tail[..2] == [SetPin(RESET, true), SetPin(CS, true)];
    assert tail[..2][..1] == [SetPin(RESET, true)];
    assert LastLevel(tail, CS, level) == LastLevel(tail[..2], CS, level);
    assert LastLevel(tail, RESET, level) == LastLevel(tail[..2], RESET, level) == LastLevel(tail[..2][..1], RESET, level);
  }

  /**
   * After `epd_shutdown`, whatever came before, RESET, CS and POWER are
   * driven high (POWER high being the panel switched off).
   */
  lemma ShutdownLeavesPinsHigh(out0: seq<bv8>, t0: seq<Event>, input: nat -> bv8, r0: nat)
    requires |out0| == 4
    ensures var t := t0 + ShutdownEvents(input, r0);
      Level(OutAfter(out0, t), RESET) && Level(OutAfter(out0, t), CS) && Level(OutAfter(out0, t), POWER)
  {
    var ops := OpsEvents(ShutdownOps(), input, r0);
    var tail := [SetPin(RESET, true)] + [SetPin(CS, true)] + [SetPin(POWER, true)];
    var t := t0 + ShutdownEvents(input, r0);
    assert t == (t0 + ops) + tail;
    OutLevel(out0, t, RESET);
    LastLevelAppend(t0 + ops, tail, RESET, Level(out0, RESET));
    ShutdownTail(LastLevel(t0 + ops, RESET, Level(out0, RESET)));
    OutLevel(out0, t, CS);
    LastLevelAppend(t0 + ops, tail, CS, Level(out0, CS));
    ShutdownTail(LastLevel(t0 + ops, CS, Level(out0, CS)));
    OutLevel(out0, t, POWER);
    LastLevelAppend(t0 + ops, tail, POWER, Level(out0, POWER));
    ShutdownTail(LastLevel(t0 + ops, POWER, Level(out0, POWER)));
  }

  // ---------------------------------------------------------------------------
  // Initialisation

  /** `epd_lut_full`, the waveform table `epd_init` loads. */
  const LUT_FULL: seq<bv8> := [
    0xAA, 0x65, 0x55, 0x8A, 0x16, 0x66, 0x65, 0x18,
    0x88, 0x99, 0x00, 0x00, 0x00, 0x00, 0x00, 0x00,
    0x14, 0x14, 0x14, 0x14, 0x14, 0x14, 0x14, 0x14,
    0x14, 0x14, 0x00, 0x00, 0x00, 0x00, 0x00, 0x00]

  /**
   * The first register writes of `epd_init`: driver output control with
   * the panel height, dummy line period, gate line width and data entry
   * mode.
   */
  function GeometryOps(): seq<Op>
  {
    [Command(0x01)] + [Data(ByteOf(HEIGHT))] + [Data(ByteOf(HEIGHT / 256))]
    + [Command(0x3a)] + [Data(0x1a)]
    + [Command(0x3b)] + [Data(0x04)]
    + [Command(0x11)] + [Data(0x01)]
  }

  /** The next ones: VCOM, booster soft start and border waveform. */
  function AnalogOps(): seq<Op>
  {
    [Command(0x2c)] + [Data(0x79)]
    + [Command(0x0C)] + [Data(0xD7)] + [Data(0xD6)] + [Data(0x9D)]
    + [Command(0x3c)] + [Data(0x33)]
  }

  /** All register writes `epd_init` sends before the waveform table. */
  function InitRegisterOps(): seq<Op>
  {
    GeometryOps() + AnalogOps()
  }

  /** Everything `epd_init` sends: the registers, 0x32 and the table, then display update control 1. */
  function InitOps(): seq<Op>
  {
    InitRegisterOps() + [Command(0x32)] + DataOps(LUT_FULL) + [Command(0x21)] + [Data(0x83)]
  }

  /**
   * `epd_init` starts with driver output control, 0x01, followed by the
   * panel height as two bytes, low byte first; it loads the waveform
   * table with 0x32 followed by all 32 bytes of `epd_lut_full` in order,
   * and ends with display update control 1 (0x21, 0x83).
   */
  lemma InitSendsHeightAndLut()
    ensures |InitOps()| == 52
    ensures InitOps()[0] == Command(0x01)
    ensures InitOps()[1].Data? && InitOps()[2].Data?
    ensures InitOps()[1].value as int + 256 * InitOps()[2].value as int == HEIGHT
    ensures InitOps()[17] == Command(0x32)
    ensures forall i :: 0 <= i < 32 ==> InitOps()[18 + i] == Data(LUT_FULL[i])
    ensures InitOps()[50] == Command(0x21) && InitOps()[51] == Data(0x83)
  {
    var head := InitRegisterOps();
    var ops := InitOps();
    assert head[0] == Command(0x01) && head[1] == Data(0xFA) && head[2] == Data(0x00);
    assert ops == head + [Command(0x32)] + DataOps(LUT_FULL) + [Command(0x21)] + [Data(0x83)];
    assert ops[..17] == head;
    assert ops[18..50] == DataOps(LUT_FULL);
  }

  /** Driver output control to data entry mode, lines 151-165 of `epd_init`. */
  method InitGeometry(m: Mcu)
    requires m.Valid()
    modifies m
    ensures m.Valid()
    ensures m.trace == old(m.trace) + OpsEvents(GeometryOps(), m.input, old(m.readCount)) && m.readCount == old(m.readCount)
  {
    ghost var t0 := m.trace;
    EpdCommand(m, 0x01);
    EpdData(m, ByteOf(HEIGHT));
    EpdData(m, ByteOf(HEIGHT / 256));
    EpdCommand(m, 0x3a);
    EpdData(m, 0x1a);
    EpdCommand(m, 0x3b);
    EpdData(m, 0x04);
    EpdCommand(m, 0x11);
    EpdData(m, 0x01);
    OpsEventsOne(t0, Command(0x01), m.input, m.readCount);
    Chain7(t0, [Command(0x01)], Data(ByteOf(HEIGHT)), Data(ByteOf(HEIGHT / 256)), Command(0x3a), Data(0x1a),
      Command(0x3b), Data(0x04), Command(0x11), m.input, m.readCount);
    OpsEventsSnoc(t0, [Command(0x01)] + [Data(ByteOf(HEIGHT))] + [Data(ByteOf(HEIGHT / 256))]
      + [Command(0x3a)] + [Data(0x1a)] + [Command(0x3b)] + [Data(0x04)] + [Command(0x11)], Data(0x01), m.input, m.readCount);
  }

  /** VCOM to border waveform, lines 167-176 of `epd_init`. */
  method InitAnalog(m: Mcu)
    requires m.Valid()
    modifies m
    ensures m.Valid()
    ensures m.trace == old(m.trace) + OpsEvents(AnalogOps(), m.input, old(m.readCount)) && m.readCount == old(m.readCount)
  {
    ghost var t0 := m.trace;
    EpdCommand(m, 0x2c);
    EpdData(m, 0x79);
    EpdCommand(m, 0x0C);
    EpdData(m, 0xD7);
    EpdData(m, 0xD6);
    EpdData(m, 0x9D);
    EpdCommand(m, 0x3c);
    EpdData(m, 0x33);
    OpsEventsOne(t0, Command(0x2c), m.input, m.readCount);
    Chain7(t0, [Command(0x2c)], Data(0x79), Command(0x0C), Data(0xD7), Data(0xD6), Data(0x9D),
      Command(0x3c), Data(0x33), m.input, m.readCount);
  }

  /** The first `i + 1` table entries as data ops extend the first `i`. */
  lemma DataOpsSnoc(bytes: seq<bv8>, i: nat)
    requires i < |bytes|
    ensures DataOps(bytes[..i + 1]) == DataOps(bytes[..i]) + [Data(bytes[i])]
  {
  }

  /** The waveform-table loop of `epd_init`: one `epd_data` per table entry. */
  method SendLut(m: Mcu)
    requires m.Valid()
    modifies m
    ensures m.Valid() && m.readCount == old(m.readCount)
    ensures m.trace == old(m.trace) + OpsEvents(DataOps(LUT_FULL), m.input, m.readCount)
  {
    ghost var t0 := m.trace;
    var i := 0;
    while i < |LUT_FULL|
      invariant 0 <= i <= |LUT_FULL|
      invariant m.Valid() && m.readCount == old(m.readCount)
      invariant m.trace == t0 + OpsEvents(DataOps(LUT_FULL[..i]), m.input, m.readCount)
    {
      DataOpsSnoc(LUT_FULL, i);
      OpsEventsSnoc(t0, DataOps(LUT_FULL[..i]), Data(LUT_FULL[i]), m.input, m.readCount);
      EpdData(m, LUT_FULL[i]);
      i := i + 1;
    }
    assert LUT_FULL[..i] == LUT_FULL;
  }

  /** Joining the events of the ops sent before the table with those of the table. */
  lemma JoinOps(t0: seq<Event>, a: seq<Op>, b: seq<Op>, input: nat -> bv8, r0: nat)
    ensures t0 + OpsEvents(a, input, r0) + OpsEvents(b, input, r0) == t0 + OpsEvents(a + b, input, r0)
  {
    OpsEventsAppend(a, b, input, r0);
    AppendAssoc(t0, OpsEvents(a, input, r0), OpsEvents(b, input, r0));
  }

  /**
   * `epd_init`, without its two waits for BUSY: the register block, the
   * waveform table, then display update control 1.
   */
  method EpdInit(m: Mcu)
    requires m.Valid()
    modifies m
    ensures m.Valid()
    ensures m.trace == old(m.trace) + OpsEvents(InitOps(), m.input, old(m.readCount)) && m.readCount == old(m.readCount)
  {
    ghost var t0 := m.trace;
    InitGeometry(m);
    InitAnalog(m);
    JoinOps(t0, GeometryOps(), AnalogOps(), m.input, m.readCount);
    EpdCommand(m, 0x32);
    SendLut(m);
    EpdCommand(m, 0x21);
    EpdData(m, 0x83);
    ghost var regs := InitRegisterOps() + [Command(0x32)];
    OpsEventsSnoc(t0, InitRegisterOps(), Command(0x32), m.input, m.readCount);
    JoinOps(t0, regs, DataOps(LUT_FULL), m.input, m.readCount);
    OpsEventsSnoc(t0, regs + DataOps(LUT_FULL), Command(0x21), m.input, m.readCount);
    OpsEventsSnoc(t0, regs + DataOps(LUT_FULL) + [Command(0x21)], Data(0x83), m.input, m.readCount);
  }

  // ---------------------------------------------------------------------------
  // The RAM window

  /** The byte whose value is `k`. */
  function ByteValue(k: int): (b: bv8)
    requires 0 <= k < 256
    ensures b as int == k
  {
    if k < 2 then (if k == 1 then 1 else 0)
    else var half := ByteValue(k / 2); var low: bv8 := if k % 2 == 1 then 1 else 0; half + half + low
  }

  /** The `& 0xFF` of a value, as the byte a `uint8_t` holds. */
  function ByteOf(v: int): (b: bv8)
    ensures b as int == v % 256
  {
    ByteValue(v % 256)
  }

  /** `y + h - 1` and `x + w - 1`, computed and stored in 16 bits. */
  function EndOf(start: uint16, size: uint16): (end: uint16)
    ensures end == if size == 0 && start == 0 then 0xFFFF else (start + size - 1) % 0x1_0000
    ensures start + size - 1 < 0x1_0000 && 0 < size ==> end == start + size - 1
  {
    (start + size - 1) % 0x1_0000
  }

  /**
   * The ops of `epd_set_frame(x, y, w, h)`: the RAM X range in bytes of
   * eight pixels, the Y range from the end down to the start, the X and Y
   * address counters, then the RAM write command.
   */
  function SetFrameOps(x: uint16, y: uint16, w: uint16, h: uint16): seq<Op>
  {
    [Command(0x44)] + [Data(ByteOf(x / 8))] + [Data(ByteOf(EndOf(x, w) / 8))]
    + [Command(0x45)] + [Data(ByteOf(EndOf(y, h)))] + [Data(ByteOf(EndOf(y, h) / 256))]
      + [Data(ByteOf(y))] + [Data(ByteOf(y / 256))]
    + [Command(0x4e)] + [Data(ByteOf(x / 8))]
    + [Command(0x4f)] + [Data(ByteOf(EndOf(y, h)))] + [Data(ByteOf(EndOf(y, h) / 256))]
    + [Command(0x24)]
  }

  /** `epd_set_frame(x, y, w, h)`, without its wait for BUSY. */
  method EpdSetFrame(m: Mcu, x: uint16, y: uint16, w: uint16, h: uint16)
    requires m.Valid()
    modifies m
    ensures m.Valid()
    ensures m.trace == old(m.trace) + OpsEvents(SetFrameOps(x, y, w, h), m.input, old(m.readCount))
    ensures m.readCount == old(m.readCount)
  {
    ghost var t0 := m.trace;
    var yEnd := EndOf(y, h);
    var xEnd := EndOf(x, w);
    EpdCommand(m, 0x44);
    EpdData(m, ByteOf(x / 8));
    EpdData(m, ByteOf(xEnd / 8));
    EpdCommand(m, 0x45);
    EpdData(m, ByteOf(yEnd));
    EpdData(m, ByteOf(yEnd / 256));
    EpdData(m, ByteOf(y));
    EpdData(m, ByteOf(y / 256));
    EpdCommand(m, 0x4e);
    EpdData(m, ByteOf(x / 8));
    EpdCommand(m, 0x4f);
    EpdData(m, ByteOf(yEnd));
    EpdData(m, ByteOf(yEnd / 256));
    EpdCommand(m, 0x24);
    ghost var p1 := [Command(0x44)];
    ghost var p8 := p1 + [Data(ByteOf(x / 8))] + [Data(ByteOf(xEnd / 8))]
      + [Command(0x45)] + [Data(ByteOf(yEnd))] + [Data(ByteOf(yEnd / 256))] + [Data(ByteOf(y))] + [Data(ByteOf(y / 256))];
    ghost var p11 := p8 + [Command(0x4e)] + [Data(ByteOf(x / 8))] + [Command(0x4f)];
    OpsEventsOne(t0, Command(0x44), m.input, m.readCount);
    Chain7(t0, p1, Data(ByteOf(x / 8)), Data(ByteOf(xEnd / 8)), Command(0x45), Data(ByteOf(yEnd)),
      Data(ByteOf(yEnd / 256)), Data(ByteOf(y)), Data(ByteOf(y / 256)), m.input, m.readCount);
    Chain3(t0, p8, Command(0x4e), Data(ByteOf(x / 8)), Command(0x4f), m.input, m.readCount);
    Chain3(t0, p11, Data(ByteOf(yEnd)), Data(ByteOf(yEnd / 256)), Command(0x24), m.input, m.readCount);
  }

  /**
   * The window `epd_set_frame` programs: X from byte `x / 8` to byte
   * `(x + w - 1) / 8`, Y from `y + h - 1` down to `y`, both ends taken
   * modulo 2^16, each Y value sent low byte first; the X and Y address
   * counters start at the X start and the Y end, and the last op starts
   * the RAM write.  Every op but the five commands is data.
   */
  lemma SetFrameWindow(x: uint16, y: uint16, w: uint16, h: uint16)
    ensures var ops := SetFrameOps(x, y, w, h);
      var yEnd := (y + h - 1) % 0x1_0000;
      var xEnd := (x + w - 1) % 0x1_0000;
      |ops| == 14
      && ops[0] == Command(0x44) && ops[1].value as int == x / 8 % 256 && ops[2].value as int == xEnd / 8 % 256
      && ops[3] == Command(0x45)
      && ops[4].value as int + 256 * ops[5].value as int == yEnd
      && ops[6].value as int + 256 * ops[7].value as int == y
      && ops[8] == Command(0x4e) && ops[9] == ops[1]
      && ops[10] == Command(0x4f) && ops[11] == ops[4] && ops[12] == ops[5]
      && ops[13] == Command(0x24)
      && forall i :: 0 <= i < 14 && i != 0 && i != 3 && i != 8 && i != 10 && i != 13 ==> ops[i].Data?
  {
    SetFrameDisplay(x, y, w, h);
    ByteSplit(EndOf(y, h));
    ByteSplit(y);
  }

  /** A value below 256 is its own byte. */
  lemma ByteOfSmall(v: int)
    requires 0 <= v < 256
    ensures ByteOf(v) as int == v
  {
    assert v % 256 == v;
  }

  /** A 16-bit value is its low byte plus 256 times its high byte. */
  lemma ByteSplit(v: uint16)
    ensures ByteOf(v) as int + 256 * ByteOf(v / 256) as int == v
  {
  }

  /** `SetFrameOps` as a display of its fourteen ops. */
  lemma SetFrameDisplay(x: uint16, y: uint16, w: uint16, h: uint16)
    ensures SetFrameOps(x, y, w, h) == [Command(0x44), Data(ByteOf(x / 8)), Data(ByteOf(EndOf(x, w) / 8)),
      Command(0x45), Data(ByteOf(EndOf(y, h))), Data(ByteOf(EndOf(y, h) / 256)), Data(ByteOf(y)), Data(ByteOf(y / 256)),
      Command(0x4e), Data(ByteOf(x / 8)),
      Command(0x4f), Data(ByteOf(EndOf(y, h))), Data(ByteOf(EndOf(y, h) / 256)),
      Command(0x24)]
  {
    var yEnd := EndOf(y, h);
    var b1, b2 := ByteOf(x / 8), ByteOf(EndOf(x, w) / 8);
    var b4, b5, b6, b7 := ByteOf(yEnd), ByteOf(yEnd / 256), ByteOf(y), ByteOf(y / 256);
    SnocFourteen(Command(0x44), Data(b1), Data(b2), Command(0x45), Data(b4), Data(b5), Data(b6), Data(b7),
      Command(0x4e), Data(b1), Command(0x4f), Data(b4), Data(b5), Command(0x24));
  }

  /**
   * For a window starting on a byte boundary and not past pixel 2047, the
   * X range covers `w` pixels rounded up to whole bytes.
   */
  lemma SetFrameRoundsWidthUp(x: uint16, y: uint16, w: uint16, h: uint16)
    requires x % 8 == 0 && 0 < w && x + w <= 2048
    ensures var ops := SetFrameOps(x, y, w, h);
      ops[2].value as int - ops[1].value as int + 1 == (w + 7) / 8
  {
    SetFrameDisplay(x, y, w, h);
    var k := x / 8;
    var last := (x + w - 1) / 8;
    assert x == 8 * k && k < 256;
    assert EndOf(x, w) == x + w - 1;
    assert last == k + (w - 1) / 8 && last < 256;
    ByteOfSmall(k);
    ByteOfSmall(last);
  }

  /** A height of 0 wraps the Y end to 0xFFFF below a start of 0. */
  lemma SetFrameZeroHeightWraps()
    ensures SetFrameOps(0, 0, 8, 0)[4] == Data(0xFF) && SetFrameOps(0, 0, 8, 0)[5] == Data(0xFF)
  {
    SetFrameWindow(0, 0, 8, 0);
  }

  /** `epd_draw_start`: the whole panel, 122 × 250. */
  function DrawStartOps(): seq<Op>
  {
    SetFrameOps(0, 0, WIDTH, HEIGHT)
  }

  method EpdDrawStart(m: Mcu)
    requires m.Valid()
    modifies m
    ensures m.Valid()
    ensures m.trace == old(m.trace) + OpsEvents(DrawStartOps(), m.input, old(m.readCount))
    ensures m.readCount == old(m.readCount)
  {
    EpdSetFrame(m, 0, 0, WIDTH, HEIGHT);
  }

  /** The full-panel window's X range: bytes 0 to 15 (122 pixels rounded up to 128). */
  lemma DrawStartColumns()
    ensures var ops := DrawStartOps();
      |ops| == 14 && ops[1] == Data(0x00) && ops[2] == Data(0x0F)
  {
    SetFrameDisplay(0, 0, WIDTH, HEIGHT);
    assert EndOf(0, WIDTH) / 8 == 15;
  }

  /** The full-panel window's Y range: from 249 (0x00F9) down to 0, low byte first. */
  lemma DrawStartRows()
    ensures var ops := DrawStartOps();
      |ops| == 14 && ops[4] == Data(0xF9) && ops[5] == Data(0x00)
      && ops[6] == Data(0x00) && ops[7] == Data(0x00)
  {
    SetFrameDisplay(0, 0, WIDTH, HEIGHT);
    assert EndOf(0, HEIGHT) == 249 && EndOf(0, HEIGHT) / 256 == 0;
    assert ByteOf(0) == 0x00;
  }

  // ---------------------------------------------------------------------------
  // Display update

  /** The ops of `epd_display`: update control 2 with 0xc4, then activate (0x20). */
  function DisplayOps(): seq<Op>
  {
    [Command(0x22)] + [Data(0xc4)] + [Command(0x20)]
  }

  /** `epd_display`, without its wait for BUSY. */
  method EpdDisplay(m: Mcu)
    requires m.Valid()
    modifies m
    ensures m.Valid()
    ensures m.trace == old(m.trace) + OpsEvents(DisplayOps(), m.input, old(m.readCount))
    ensures m.readCount == old(m.readCount)
  {
    ghost var t0 := m.trace;
    EpdCommand(m, 0x22);
    EpdData(m, 0xc4);
    EpdCommand(m, 0x20);
    OpsEventsOne(t0, Command(0x22), m.input, m.readCount);
    OpsEventsSnoc(t0, [Command(0x22)], Data(0xc4), m.input, m.readCount);
    OpsEventsSnoc(t0, [Command(0x22)] + [Data(0xc4)], Command(0x20), m.input, m.readCount);
  }
}
