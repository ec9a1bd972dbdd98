/**
 * The tag firmware's side of the A7106 radio (src/radio.c).  The radio
 * hangs off three pins of port 1 and the firmware only ever puts it to
 * sleep: `radio_init` selects the chip, sends the SLEEP strobe and
 * deselects it again.
 */
module RadioFirmware {
  import opened Sequences
  import opened Pins
  import A7106

  const SDIO: bv8 := 0x12
  const SCK: bv8 := 0x14
  const SCS: bv8 := 0x13

  const CMD_STBY: bv8 := 0xA0
  const CMD_SLEEP: bv8 := 0x80

  /** The events of `radio_write(b)`: `b` on SDIO, clocked by SCK, nothing read. */
  function WriteEvents(b: bv8, input: nat -> bv8, r0: nat): seq<Event>
  {
    SpiEvents(SCK, SDIO, 0, b, input, r0, 8)
  }

  /** The event of `radio_cs(selected)`: the chip select is active low. */
  function CsEvent(selected: bv8): Event
  {
    SetPin(SCS, selected == 0)
  }

  /** The events of `radio_init`. */
  function InitEvents(input: nat -> bv8, r0: nat): seq<Event>
  {
    [SetDir(SDIO, true), SetDir(SCK, true), SetDir(SCS, true), SetPin(SCS, true), CsEvent(1)]
    + WriteEvents(CMD_SLEEP, input, r0) + [CsEvent(0)]
  }

  /** `radio_write(b)`: `spi_write` on SCK and SDIO with no input pin. */
  method RadioWrite(m: Mcu, b: bv8)
    requires m.Valid()
    modifies m
    ensures m.Valid()
    ensures m.trace == old(m.trace) + WriteEvents(b, m.input, old(m.readCount)) && m.readCount == old(m.readCount)
  {
    var ignored := m.SpiWrite(SCK, SDIO, 0, b);
  }

  /** `radio_cs(selected)`: SCS is driven to `!selected`. */
  method RadioCs(m: Mcu, selected: bv8)
    requires m.Valid()
    modifies m
    ensures m.Valid()
    ensures m.trace == old(m.trace) + [CsEvent(selected)] && m.readCount == old(m.readCount)
  {
    m.PinWrite(SCS, if selected == 0 then 1 else 0);
  }

  /**
   * `radio_init`: SDIO, SCK and SCS become outputs, SCS is driven high,
   * then the SLEEP strobe is sent inside one chip-select frame.
   */
  method RadioInit(m: Mcu)
    requires m.Valid()
    modifies m
    ensures m.Valid()
    ensures m.trace == old(m.trace) + InitEvents(m.input, old(m.readCount)) && m.readCount == old(m.readCount)
  {
    ghost var t0 := m.trace;
    m.PinDdr(SDIO, 1);
    m.PinDdr(SCK, 1);
    m.PinDdr(SCS, 1);
    m.PinWrite(SCS, 1);
    RadioCs(m, 1);
    ghost var t1 := m.trace;
    RadioWrite(m, CMD_SLEEP);
    RadioCs(m, 0);
    ghost var head := [SetDir(SDIO, true), SetDir(SCK, true), SetDir(SCS, true), SetPin(SCS, true), CsEvent(1)];
    assert t1 == t0 + head;
    AppendAssoc(t0 + head, WriteEvents(CMD_SLEEP, m.input, m.readCount), [CsEvent(0)]);
    AppendAssoc(t0, head + WriteEvents(CMD_SLEEP, m.input, m.readCount), [CsEvent(0)]);
    AppendAssoc(t0, head, WriteEvents(CMD_SLEEP, m.input, m.readCount));
  }

  /**
   * The SLEEP strobe is sent inside one chip-select frame: SCS falls just
   * before it and rises just after it, nothing in between drives SCS, and
   * the radio, clocking SDIO on rising edges of SCK, receives exactly the
   * eight bits of 0x80, which it shifts in as that byte.  Nothing is read.
   */
  lemma InitSendsSleep(input: nat -> bv8, r0: nat, level: bool)
    ensures var e := InitEvents(input, r0);
      var frame := e[5..|e| - 1];
      e[4] == SetPin(SCS, false) && e[|e| - 1] == SetPin(SCS, true)
      && frame == WriteEvents(CMD_SLEEP, input, r0)
      && Leaves(frame, SCS)
      && Clocked(frame, SCK, SDIO, level) == MsbBits(CMD_SLEEP)
      && ShiftIn(Clocked(frame, SCK, SDIO, level)) == CMD_SLEEP
      && ReadsNothing(e)
  {
    var e := InitEvents(input, r0);
    var w := WriteEvents(CMD_SLEEP, input, r0);
    assert e[5..|e| - 1] == w;
    SpiLeaves(SCK, SDIO, 0, CMD_SLEEP, input, r0, 8, SCS);
    SpiClocksOutValue(SCK, SDIO, 0, CMD_SLEEP, input, r0, 8, level);
    assert MsbBits(CMD_SLEEP)[..8] == MsbBits(CMD_SLEEP);
    SpiDeliversValue(SCK, SDIO, 0, CMD_SLEEP, input, r0, level);
    SpiWithoutInputReadsNothing(SCK, SDIO, CMD_SLEEP, input, r0, 8);
    assert forall ev :: ev in e ==> ev in e[..5] || ev in w || ev == CsEvent(0);
  }

  /** The last SetDir and SetPin of each pin in `radio_init`'s events. */
  lemma InitDirections(input: nat -> bv8, r0: nat)
    ensures forall output :: LastDirection(InitEvents(input, r0), SDIO, output)
    ensures forall output :: LastDirection(InitEvents(input, r0), SCK, output)
    ensures forall output :: LastDirection(InitEvents(input, r0), SCS, output)
    ensures forall level :: LastLevel(InitEvents(input, r0), SCS, level)
  {
    var e := InitEvents(input, r0);
    var w := WriteEvents(CMD_SLEEP, input, r0);
    var head := [SetDir(SDIO, true), SetDir(SCK, true), SetDir(SCS, true), SetPin(SCS, true), CsEvent(1)];
    var h3, h2, h1 := head[..3], head[..2], head[..1];
    assert head[..4][..3] == h3 && h3[..2] == h2 && h2[..1] == h1 && h1[..0] == [];
    assert e == head + w + [CsEvent(0)];
    SpiLeaves(SCK, SDIO, 0, CMD_SLEEP, input, r0, 8, SCS);
    forall output: bool
      ensures LastDirection(e, SDIO, output) && LastDirection(e, SCK, output) && LastDirection(e, SCS, output)
    {
      forall q | q in {SDIO, SCK, SCS}
        ensures LastDirection(e, q, output) == LastDirection(head, q, output)
      {
        LastDirectionAppend(head + w, [CsEvent(0)], q, output);
        LastDirectionAppend(head, w, q, output);
        KeepsDirectionsLevel(w, q, LastDirection(head, q, output));
      }
      assert LastDirection(head, SDIO, output) == LastDirection(head[..4], SDIO, output) == LastDirection(h3, SDIO, output)
        == LastDirection(h2, SDIO, output) == LastDirection(h1, SDIO, output);
      assert LastDirection(head, SCK, output) == LastDirection(head[..4], SCK, output) == LastDirection(h3, SCK, output)
        == LastDirection(h2, SCK, output);
      assert LastDirection(head, SCS, output) == LastDirection(head[..4], SCS, output) == LastDirection(h3, SCS, output);
    }
  }

  /**
   * After `radio_init`, whatever came before: SDIO, SCK and SCS are
   * outputs and SCS is high, so the radio is deselected.
   */
  lemma InitLeavesRadioDeselected(dir0: seq<bv8>, out0: seq<bv8>, t0: seq<Event>, input: nat -> bv8, r0: nat)
    requires |dir0| == 4 && |out0| == 4
    ensures var t := t0 + InitEvents(input, r0);
      Level(DirAfter(dir0, t), SDIO) && Level(DirAfter(dir0, t), SCK) && Level(DirAfter(dir0, t), SCS)
      && Level(OutAfter(out0, t), SCS)
  {
    var e := InitEvents(input, r0);
    var t := t0 + e;
    InitDirections(input, r0);
    DirLevel(dir0, t, SDIO);
    LastDirectionAppend(t0, e, SDIO, Level(dir0, SDIO));
    DirLevel(dir0, t, SCK);
    LastDirectionAppend(t0, e, SCK, Level(dir0, SCK));
    DirLevel(dir0, t, SCS);
    LastDirectionAppend(t0, e, SCS, Level(dir0, SCS));
    OutLevel(out0, t, SCS);
    LastLevelAppend(t0, e, SCS, Level(out0, SCS));
  }

  /** Both command constants are the radio's strobe encodings: SLEEP is strobe 8, STBY strobe 10. */
  lemma CommandsAreStrobes()
    ensures CMD_SLEEP as int == A7106.StrobeCommand(8) && A7106.Classify(CMD_SLEEP as int) == A7106.Strobe(8)
    ensures CMD_STBY as int == A7106.StrobeCommand(10) && A7106.Classify(CMD_STBY as int) == A7106.Strobe(10)
  {
  }
}
