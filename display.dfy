/**
 * The tag's display logic (src/main.c): the seconds counter is written
 * into a short message as eight hex digits between '=' and '!', and
 * `draw_msg` streams that message to the panel, one byte of eight pixels
 * at a time, through the glyph-walking state machine `bitmap`.  The font
 * table is external to the firmware and is a parameter here.
 */
module Display {
  import opened Sequences
  import opened Pins
  import opened Epd

  /** A C `uint8_t`. */
  type uint8 = v: int | 0 <= v < 0x100

  /** A C `uint32_t`. */
  type uint32 = v: int | 0 <= v < 0x1_0000_0000

  /** One glyph of the font: six columns of eight pixels. */
  type Glyph = g: seq<bv8> | |g| == 6 witness [0, 0, 0, 0, 0, 0]

  // ---------------------------------------------------------------------------
  // Hex digits and the message

  /** The sixteen digits `hexdigit` can return, in order of value. */
  const HEX_DIGITS: seq<char> := "0123456789ABCDEF"

  /** `hexdigit(x)` for an `unsigned` (16-bit) `x`: the digit of its low nibble. */
  function HexDigit(x: uint16): char
  {
    var n := x % 16;
    if n <= 9 then ('0' as int + n) as char else ('A' as int + n - 10) as char
  }

  /** The value of a digit `hexdigit` returns. */
  function HexValue(c: char): (v: int)
    ensures 0 <= v < 16
  {
    if '0' <= c <= '9' then c as int - '0' as int
    else if 'A' <= c <= 'F' then c as int - 'A' as int + 10
    else 0
  }

  /**
   * `hexdigit` depends only on `x & 0xF`, gives that nibble's digit from
   * the table of hex digits, and its value is the nibble.
   */
  lemma HexDigitIsNibble(x: uint16)
    ensures HexDigit(x) == HEX_DIGITS[x % 16]
    ensures HexValue(HexDigit(x)) == x % 16
  {
    var n := x % 16;
    if n <= 9 {
      assert HEX_DIGITS[n] == ('0' as int + n) as char by {
        assert HEX_DIGITS[..10] == "0123456789";
      }
    } else {
      assert HEX_DIGITS[n] == ('A' as int + n - 10) as char by {
        assert HEX_DIGITS[10..] == "ABCDEF";
      }
    }
  }

  /** Two arguments with the same low nibble give the same digit. */
  lemma HexDigitLowNibble(x: uint16, x': uint16)
    requires x % 16 == x' % 16
    ensures HexDigit(x) == HexDigit(x')
  {
  }

  /** A 32-bit value passed to an `unsigned` (16-bit) parameter keeps its low 16 bits. */
  function Unsigned(v: int): uint16
  {
    v % 0x1_0000
  }

  /** The message `main` writes for `timer`: '=', its eight nibbles from the top one down as hex digits, then '!'. */
  function Message(timer: uint32): (s: seq<char>)
    ensures |s| == 10
  {
    ['=',
     HexDigit(Unsigned(timer / 0x1000_0000)), HexDigit(Unsigned(timer / 0x100_0000)),
     HexDigit(Unsigned(timer / 0x10_0000)), HexDigit(Unsigned(timer / 0x1_0000)),
     HexDigit(Unsigned(timer / 0x1000)), HexDigit(Unsigned(timer / 0x100)),
     HexDigit(Unsigned(timer / 0x10)), HexDigit(Unsigned(timer)),
     '!']
  }

  /** The number a string of hex digits spells, most significant digit first. */
  function HexNumber(digits: seq<char>): (v: nat)
  {
    if |digits| == 0 then 0 else 16 * HexNumber(digits[..|digits| - 1]) + HexValue(digits[|digits| - 1])
  }

  /** The digit for `timer >> shift` is the nibble `timer / p % 16`, where `p` is 2^shift. */
  lemma DigitValue(timer: uint32, p: nat)
    requires p > 0
    ensures HexValue(HexDigit(Unsigned(timer / p))) == timer / p % 16
  {
    var a := timer / p;
    HexDigitIsNibble(Unsigned(a));
    var q, r := a / 0x1_0000, a % 0x1_0000;
    var q', c := r / 16, r % 16;
    assert a == 16 * (0x1000 * q + q') + c;
    DivUnique(a, 16, 0x1000 * q + q', c);
  }

  /** One more digit: the value of the first `j + 1` digits. */
  lemma HexNumberSnoc(digits: seq<char>, j: nat)
    requires j < |digits|
    ensures HexNumber(digits[..j + 1]) == 16 * HexNumber(digits[..j]) + HexValue(digits[j])
  {
    assert digits[..j + 1][..j] == digits[..j];
  }

  /** Euclidean division determines the quotient and the remainder. */
  lemma DivUnique(t: int, d: int, q: int, r: int)
    requires d > 0 && 0 <= r < d && t == d * q + r
    ensures t / d == q && t % d == r
  {
    var q', r' := t / d, t % d;
    assert d * (q' - q) == r - r';
    assert q' - q >= 1 ==> d * (q' - q) >= d;
    assert q' - q <= -1 ==> d * (q' - q) <= -d;
  }

  /** Dividing by `p` and then by 16 is dividing by `16 * p`. */
  lemma DivDiv(t: nat, p: nat)
    requires p > 0
    ensures t / (16 * p) == t / p / 16
  {
    var a, r := t / p, t % p;
    var b, c := a / 16, a % 16;
    DivUnique(t, p, a, r) by {
      assert t == p * a + r;
    }
    ScaleSplit(p, a, b, c);
    ScaleBound(p, c, r);
    DivUnique(t, 16 * p, b, p * c + r);
  }

  /** A nibble's multiple of `p` plus a remainder below `p` stays below `16 * p`. */
  lemma ScaleBound(p: int, c: int, r: int)
    requires 0 <= c < 16 && 0 <= r < p
    ensures 0 <= p * c + r < 16 * p
  {
    assert p * c <= p * 15;
  }

  /** Scaling `a == 16 * b + c` by `p`. */
  lemma ScaleSplit(p: int, a: int, b: int, c: int)
    requires a == 16 * b + c
    ensures p * a == (16 * p) * b + p * c
  {
  }

  /**
   * Horner's rule, one digit at a time: if the first `j` digits spell
   * `t / (16 * p)` and digit `j` is the nibble `t / p % 16`, the first
   * `j + 1` digits spell `t / p`.
   */
  lemma HornerStep(digits: seq<char>, j: nat, t: nat, p: nat)
    requires j < |digits| && p > 0
    requires HexNumber(digits[..j]) == t / (16 * p)
    requires HexValue(digits[j]) == t / p % 16
    ensures HexNumber(digits[..j + 1]) == t / p
  {
    HexNumberSnoc(digits, j);
    DivDiv(t, p);
  }

  /** Reading the eight digits of the message back as a hex number gives `timer`. */
  lemma MessageRoundTrip(timer: uint32)
    ensures HexNumber(Message(timer)[1..9]) == timer
  {
    var d := Message(timer)[1..9];
    assert d[..0] == [];
    DivUnique(timer, 0x1_0000_0000, 0, timer);
    DigitValue(timer, 0x1000_0000);
    HornerStep(d, 0, timer, 0x1000_0000);
    DigitValue(timer, 0x100_0000);
    HornerStep(d, 1, timer, 0x100_0000);
    DigitValue(timer, 0x10_0000);
    HornerStep(d, 2, timer, 0x10_0000);
    DigitValue(timer, 0x1_0000);
    HornerStep(d, 3, timer, 0x1_0000);
    DigitValue(timer, 0x1000);
    HornerStep(d, 4, timer, 0x1000);
    DigitValue(timer, 0x100);
    HornerStep(d, 5, timer, 0x100);
    DigitValue(timer, 0x10);
    HornerStep(d, 6, timer, 0x10);
    DivUnique(timer, 1, timer, 0);
    DigitValue(timer, 1);
    HornerStep(d, 7, timer, 1);
    assert d[..8] == d;
  }

  /** Every digit `hexdigit` returns lies between '0' and 'F'. */
  lemma HexDigitRange(x: uint16)
    ensures '0' <= HexDigit(x) <= 'F'
  {
  }

  /** The message is framed by '=' and '!' and only uses characters from ' ' to 'F'. */
  lemma MessageChars(timer: uint32)
    ensures Message(timer)[0] == '=' && Message(timer)[9] == '!'
    ensures forall i :: 0 <= i < 10 ==> ' ' <= Message(timer)[i] <= 'F'
  {
  }

  /** Consecutive timer values, or any two different ones, never give the same message. */
  lemma MessageInjective(t1: uint32, t2: uint32)
    requires Message(t1) == Message(t2)
    ensures t1 == t2
  {
    MessageRoundTrip(t1);
    MessageRoundTrip(t2);
  }

  /** The watchdog interrupt's `timer++` on a `uint32_t`. */
  function NextTimer(timer: uint32): (t: uint32)
  {
    (timer + 1) % 0x1_0000_0000
  }

  /** Each tick changes the message, also when the counter wraps from 0xFFFFFFFF to 0. */
  lemma TickChangesMessage(timer: uint32)
    ensures Message(NextTimer(timer)) != Message(timer)
    ensures NextTimer(timer) == 0 <==> timer == 0xFFFF_FFFF
  {
    if Message(NextTimer(timer)) == Message(timer) {
      MessageInjective(NextTimer(timer), timer);
    }
  }

  // ---------------------------------------------------------------------------
  // The test pattern

  /**
   * The byte `epd_checkerboard` sends for the eight pixels from `x` in row
   * `y`: black (0x00) inside the box of the first 64 pixels of the first
   * 32 rows, white (0xFF) everywhere else.
   */
  function CheckerByte(y: nat, x: nat): bv8
  {
    if x < 64 && y < 32 then 0x00 else 0xFF
  }

  /** The first `k` bytes of row `y` of the test pattern. */
  function CheckerBytes(y: nat, k: nat): (row: seq<bv8>)
    ensures |row| == k
  {
    if k == 0 then [] else CheckerBytes(y, k - 1) + [CheckerByte(y, 8 * (k - 1))]
  }

  /** Row `y` of the test pattern: sixteen bytes, 128 pixels. */
  function CheckerRow(y: nat): (row: seq<bv8>)
    ensures |row| == 16
  {
    CheckerBytes(y, 16)
  }

  /** The first `n` rows of the test pattern. */
  function CheckerRows(n: nat): (f: seq<bv8>)
    ensures |f| == 16 * n
  {
    if n == 0 then [] else CheckerRows(n - 1) + CheckerRow(n - 1)
  }

  /**
   * The whole test pattern as the panel lays it out: byte `i` holds the
   * eight pixels from `8 * (i % 16)` in row `i / 16`.
   */
  function CheckerFrame(): (f: seq<bv8>)
    ensures |f| == 16 * HEIGHT
  {
    seq(16 * HEIGHT, i requires 0 <= i < 16 * HEIGHT => CheckerByte(i / 16, 8 * (i % 16)))
  }

  /**
   * Byte `j` of row `y` sits at `16 * y + j` in the frame, and it is
   * black exactly inside the 64 × 32 box at the top left, white elsewhere.
   */
  lemma CheckerAt(y: nat, j: nat)
    requires y < HEIGHT && j < 16
    ensures CheckerFrame()[16 * y + j] == CheckerByte(y, 8 * j)
    ensures CheckerFrame()[16 * y + j] == 0x00 <==> 8 * j < 64 && y < 32
    ensures CheckerFrame()[16 * y + j] == 0x00 || CheckerFrame()[16 * y + j] == 0xFF
  {
    DivUnique(16 * y + j, 16, y, j);
  }

  /** The rows the loops send, one after the other, are the frame's first `n` rows. */
  lemma {:induction false} CheckerRowsAreFrame(n: nat)
    requires n <= HEIGHT
    ensures CheckerRows(n) == CheckerFrame()[..16 * n]
  {
    if n > 0 {
      CheckerRowsAreFrame(n - 1);
      var f := CheckerFrame();
      var y := n - 1;
      forall i | 16 * y <= i < 16 * n
        ensures f[i] == CheckerRow(y)[i - 16 * y]
      {
        CheckerAt(y, i - 16 * y);
        CheckerByteAt(y, 16, i - 16 * y);
      }
      assert f[..16 * n] == f[..16 * y] + CheckerRow(y);
    }
  }

  /** The byte the loop body computes for `x == 8 * j` extends the row. */
  lemma CheckerBytesSnoc(y: nat, j: nat, x: nat, b: bv8)
    requires x == 8 * j && b == if x < 64 && y < 32 then 0x00 else 0xFF
    ensures CheckerBytes(y, j + 1) == CheckerBytes(y, j) + [b]
  {
  }

  /** Byte `j` of a row of the test pattern, by induction over the row. */
  lemma {:induction false} CheckerByteAt(y: nat, k: nat, j: nat)
    requires j < k
    ensures CheckerBytes(y, k)[j] == CheckerByte(y, 8 * j)
  {
    if j < k - 1 {
      CheckerByteAt(y, k - 1, j);
    }
  }

  /** The inner loop of `epd_checkerboard` for row `y`. */
  method SendCheckerRow(m: Mcu, y: uint16)
    requires m.Valid()
    modifies m
    ensures m.Valid() && m.readCount == old(m.readCount)
    ensures m.trace == old(m.trace) + OpsEvents(DataOps(CheckerRow(y)), m.input, m.readCount)
  {
    ghost var t0, r0 := m.trace, m.readCount;
    ghost var sent: seq<bv8> := [];
    var x: uint16 := 0;
    ghost var j := 0;
    while x < WIDTH
      invariant 0 <= j <= 16 && x == 8 * j && sent == CheckerBytes(y, j)
      invariant m.Valid() && m.readCount == r0
      invariant m.trace == t0 + OpsEvents(DataOps(sent), m.input, r0)
    {
      var b: bv8 := if x < 64 && y < 32 then 0x00 else 0xFF;
      StreamData(m, b, t0, sent);
      CheckerBytesSnoc(y, j, x, b);
      sent := sent + [b];
      x, j := x + 8, j + 1;
    }
    assert j == 16;
  }

  /** The loops of `epd_checkerboard`: one row of sixteen bytes for each `y` of the panel. */
  method SendChecker(m: Mcu)
    requires m.Valid()
    modifies m
    ensures m.Valid() && m.readCount == old(m.readCount)
    ensures m.trace == old(m.trace) + OpsEvents(DataOps(CheckerFrame()), m.input, m.readCount)
  {
    ghost var t0, r0 := m.trace, m.readCount;
    var y: uint16 := 0;
    while y < HEIGHT
      invariant 0 <= y <= HEIGHT
      invariant m.Valid() && m.readCount == r0
      invariant m.trace == t0 + OpsEvents(DataOps(CheckerRows(y)), m.input, r0)
    {
      SendCheckerRow(m, y);
      CheckerTraceSnoc(t0, y, m.input, r0);
      y := y + 1;
    }
    CheckerTraceIsFrame(t0, y, m.input, r0);
  }

  /** The trace of `y` rows of the test pattern and one more is that of `y + 1` rows. */
  lemma CheckerTraceSnoc(t0: seq<Event>, y: nat, input: nat -> bv8, r0: nat)
    ensures t0 + OpsEvents(DataOps(CheckerRows(y)), input, r0) + OpsEvents(DataOps(CheckerRow(y)), input, r0)
      == t0 + OpsEvents(DataOps(CheckerRows(y + 1)), input, r0)
  {
    DataOpsAppend(CheckerRows(y), CheckerRow(y));
    JoinOps(t0, DataOps(CheckerRows(y)), DataOps(CheckerRow(y)), input, r0);
  }

  /** The trace of all the rows of the test pattern is that of the whole frame. */
  lemma CheckerTraceIsFrame(t0: seq<Event>, n: nat, input: nat -> bv8, r0: nat)
    requires n == HEIGHT
    ensures t0 + OpsEvents(DataOps(CheckerRows(n)), input, r0) == t0 + OpsEvents(DataOps(CheckerFrame()), input, r0)
  {
    CheckerRowsAreFrame(n);
    assert CheckerFrame()[..16 * n] == CheckerFrame();
  }

  /**
   * `epd_checkerboard`: open the full-panel window, send the test
   * pattern, then refresh the panel (without its wait for BUSY).
   */
  method EpdCheckerboard(m: Mcu)
    requires m.Valid()
    modifies m
    ensures m.Valid() && m.readCount == old(m.readCount)
    ensures m.trace == old(m.trace) + OpsEvents(DrawStartOps(), m.input, m.readCount)
      + OpsEvents(DataOps(CheckerFrame()), m.input, m.readCount) + OpsEvents(DisplayOps(), m.input, m.readCount)
  {
    EpdDrawStart(m);
    SendChecker(m);
    EpdDisplay(m);
  }

  // ---------------------------------------------------------------------------
  // The glyph-walking state machine

  /** The terminating NUL of the message. */
  const NUL: char := '\0'

  /**
   * The three static variables `bitmap` walks with: `msg_i` (the current
   * character), `glyph_x` (four steps per glyph column, six columns) and
   * `msg_x` (the last `x` seen, truncated to a byte).
   */
  datatype Cursor = Cursor(msgI: uint16, glyphX: uint8, msgX: uint8)

  /**
   * The message buffer as `draw_msg` needs it: sixteen characters, the last
   * one NUL, and every other character NUL or one the font has a glyph for
   * (the font starts at ' ', 0x20).
   */
  predicate MsgOk(msg: seq<char>, font: seq<Glyph>)
  {
    |msg| == 16 && msg[15] == NUL
    && forall i :: 0 <= i < |msg| ==> msg[i] == NUL || 0x20 <= msg[i] as int < 0x20 + |font|
  }

  /** The cursor stays inside the message and inside the current glyph. */
  predicate CursorOk(c: Cursor)
  {
    c.msgI < 16 && c.glyphX < 24
  }

  /** Whether bit `s` (0 is the top row) of column `col` of the glyph for `ch` is set. */
  function GlyphPixel(font: seq<Glyph>, ch: char, col: nat, s: nat): bool
    requires 0x20 <= ch as int < 0x20 + |font| && col < 6 && s < 8
  {
    (font[ch as int - 0x20][col] >> s) & 1 == 1
  }

  /**
   * One call `bitmap(y, x)`: the next cursor and the byte of eight pixels
   * it returns, 0x00 (black) where the glyph column's bit for `y` is set.
   */
  function BitmapStep(msg: seq<char>, font: seq<Glyph>, c: Cursor, y: uint16, x: uint16): (r: (Cursor, bv8))
    requires MsgOk(msg, font) && CursorOk(c)
    ensures CursorOk(r.0)
    ensures r.1 == 0x00 || r.1 == 0xFF
    // At the end of the message: white, and the message starts over.
    ensures msg[c.msgI] == NUL ==> r == (c.(msgI := 0), 0xFF)
    // Inside a row (same `x`), the cursor does not move and the byte is the glyph column's pixel.
    ensures msg[c.msgI] != NUL && c.msgX as int == x ==>
      r.0 == c && (r.1 == 0x00 <==> GlyphPixel(font, msg[c.msgI], c.glyphX as int / 4, y as int / 16 % 8))
    // A new row moves one step along the glyph ...
    ensures msg[c.msgI] != NUL && c.msgX as int != x && c.glyphX < 23 ==>
      r.0 == c.(glyphX := c.glyphX + 1, msgX := x % 256)
      && (r.1 == 0x00 <==> GlyphPixel(font, msg[c.msgI], (c.glyphX as int + 1) / 4, y as int / 16 % 8))
    // ... and past its last step to the next character, with a white byte.
    ensures msg[c.msgI] != NUL && c.msgX as int != x && c.glyphX == 23 ==>
      r == (Cursor(c.msgI + 1, 0, x % 256), 0xFF)
  {
    var ch := msg[c.msgI];
    if ch == NUL then (c.(msgI := 0), 0xFF)
    else
      var c1 := if c.msgX as int != x then c.(msgX := x % 256, glyphX := (c.glyphX + 1) % 256) else c;
      if c1.glyphX == 24 then (c1.(glyphX := 0, msgI := c1.msgI + 1), 0xFF)
      else
        var column := font[ch as int - 0x20][c1.glyphX / 4];
        var bit := (column >> ((y / 16) % 8)) & 0x01;
        (c1, if bit != 0 then 0x00 else 0xFF)
  }

  /** The bytes of the first `k` calls of row `x` of `draw_msg`'s loop, `bitmap(0, x)`, `bitmap(8, x)`, .... */
  function Row(msg: seq<char>, font: seq<Glyph>, c: Cursor, x: uint16, k: nat): (r: (Cursor, seq<bv8>))
    requires MsgOk(msg, font) && CursorOk(c) && k <= 16
    ensures CursorOk(r.0) && |r.1| == k
    ensures forall i :: 0 <= i < k ==> r.1[i] == 0x00 || r.1[i] == 0xFF
  {
    if k == 0 then (c, [])
    else
      var p := Row(msg, font, c, x, k - 1);
      var s := BitmapStep(msg, font, p.0, 8 * (k - 1), x);
      (s.0, p.1 + [s.1])
  }

  /** The bytes of the first `n` rows of `draw_msg`'s loop. */
  function Rows(msg: seq<char>, font: seq<Glyph>, c: Cursor, n: nat): (r: (Cursor, seq<bv8>))
    requires MsgOk(msg, font) && CursorOk(c) && n <= HEIGHT
    ensures CursorOk(r.0) && |r.1| == 16 * n
    ensures forall i :: 0 <= i < 16 * n ==> r.1[i] == 0x00 || r.1[i] == 0xFF
  {
    if n == 0 then (c, [])
    else
      var p := Rows(msg, font, c, n - 1);
      var row := Row(msg, font, p.0, n - 1, 16);
      (row.0, p.1 + row.1)
  }

  /** The whole frame `draw_msg` streams, and the cursor it leaves. */
  function Frame(msg: seq<char>, font: seq<Glyph>, c: Cursor): (r: (Cursor, seq<bv8>))
    requires MsgOk(msg, font) && CursorOk(c)
  {
    Rows(msg, font, c, HEIGHT)
  }

  /** Byte `j` of a row is `bitmap(8 * j, x)`, whose bit index `(y >> 4) & 7` is `j / 2 % 8`. */
  lemma RowBitIndex(j: nat)
    ensures (8 * j) / 16 % 8 == j / 2 % 8
  {
    var q := j / 2;
    assert 8 * j == 16 * q + 8 * (j % 2);
  }

  /**
   * `bytes` show glyph column `col` of `ch` across the panel: byte `i` is
   * black exactly where bit `i / 2 % 8` of the column is set, so each bit
   * covers two bytes (sixteen pixels).
   */
  ghost predicate ShowsColumn(font: seq<Glyph>, ch: char, col: nat, bytes: seq<bv8>)
    requires 0x20 <= ch as int < 0x20 + |font| && col < 6
  {
    forall i :: 0 <= i < |bytes| ==> (bytes[i] == 0x00 <==> GlyphPixel(font, ch, col, i / 2 % 8))
  }

  lemma ShowsColumnSnoc(font: seq<Glyph>, ch: char, col: nat, bytes: seq<bv8>, b: bv8)
    requires 0x20 <= ch as int < 0x20 + |font| && col < 6
    requires ShowsColumn(font, ch, col, bytes)
    requires b == 0x00 <==> GlyphPixel(font, ch, col, |bytes| / 2 % 8)
    ensures ShowsColumn(font, ch, col, bytes + [b])
  {
  }

  /**
   * Inside a row whose first call moved the cursor one step along a glyph,
   * the cursor stays put, and the `k` bytes of row `x` show the glyph
   * column it moved to.
   */
  lemma {:induction false} RowShowsColumn(msg: seq<char>, font: seq<Glyph>, c: Cursor, x: uint16, k: nat)
    requires MsgOk(msg, font) && CursorOk(c) && 0 < k <= 16
    requires msg[c.msgI] != NUL && c.msgX as int != x && x < 256 && c.glyphX < 23
    ensures Row(msg, font, c, x, k).0 == c.(glyphX := c.glyphX + 1, msgX := x)
    ensures ShowsColumn(font, msg[c.msgI], (c.glyphX as int + 1) / 4, Row(msg, font, c, x, k).1)
  {
    var c' := c.(glyphX := c.glyphX + 1, msgX := x);
    var col := (c.glyphX as int + 1) / 4;
    var p := Row(msg, font, c, x, k - 1);
    var s := BitmapStep(msg, font, p.0, 8 * (k - 1), x);
    assert Row(msg, font, c, x, k) == (s.0, p.1 + [s.1]);
    RowBitIndex(k - 1);
    if k == 1 {
      assert p.0 == c && p.1 == [];
    } else {
      RowShowsColumn(msg, font, c, x, k - 1);
    }
    assert s.0 == c' && (s.1 == 0x00 <==> GlyphPixel(font, msg[c.msgI], col, (k - 1) / 2 % 8));
    ShowsColumnSnoc(font, msg[c.msgI], col, p.1, s.1);
  }

  /** An empty message, shown from its start, gives a row that is white throughout and keeps the cursor. */
  lemma {:induction false} EmptyRowIsWhite(msg: seq<char>, font: seq<Glyph>, c: Cursor, x: uint16, k: nat)
    requires MsgOk(msg, font) && CursorOk(c) && k <= 16 && msg[0] == NUL && c.msgI == 0
    ensures Row(msg, font, c, x, k).0 == c
    ensures forall i :: 0 <= i < k ==> Row(msg, font, c, x, k).1[i] == 0xFF
  {
    if k > 0 {
      EmptyRowIsWhite(msg, font, c, x, k - 1);
    }
  }

  /** The same for any number of rows, hence for the whole frame. */
  lemma {:induction false} EmptyRowsAreWhite(msg: seq<char>, font: seq<Glyph>, c: Cursor, n: nat)
    requires MsgOk(msg, font) && CursorOk(c) && n <= HEIGHT && msg[0] == NUL && c.msgI == 0
    ensures Rows(msg, font, c, n).0 == c
    ensures forall i :: 0 <= i < 16 * n ==> Rows(msg, font, c, n).1[i] == 0xFF
  {
    if n > 0 {
      EmptyRowsAreWhite(msg, font, c, n - 1);
      EmptyRowIsWhite(msg, font, c, n - 1, 16);
    }
  }

  /**
   * The frame holds exactly one byte for each eight pixels of the window
   * `epd_draw_start` opens: X bytes 0 to 15 by rows 0 to 249.
   */
  lemma FrameFillsWindow(msg: seq<char>, font: seq<Glyph>, c: Cursor)
    requires MsgOk(msg, font) && CursorOk(c)
    ensures var ops := DrawStartOps();
      |Frame(msg, font, c).1|
      == (ops[2].value as int - ops[1].value as int + 1)
         * (ops[4].value as int + 256 * ops[5].value as int - (ops[6].value as int + 256 * ops[7].value as int) + 1)
  {
    DrawStartColumns();
    DrawStartRows();
  }

  /** `DataOps` of two byte sequences one after the other. */
  lemma DataOpsAppend(a: seq<bv8>, b: seq<bv8>)
    ensures DataOps(a + b) == DataOps(a) + DataOps(b)
  {
  }

  /** A `DataOps` of one byte more. */
  lemma DataOpsPush(bytes: seq<bv8>, b: bv8)
    ensures DataOps(bytes + [b]) == DataOps(bytes) + [Data(b)]
  {
  }

  // ---------------------------------------------------------------------------
  // The tag's static state and `draw_msg`

  /**
   * The display side of the tag: the message buffer `msg`, the glyph
   * cursor (`msg_i`, `glyph_x`, `msg_x`) and the font it draws with.
   */
  class Tag {
    const font: seq<Glyph>
    const msg: array<char>
    var msgI: uint16
    var glyphX: uint8
    var msgX: uint8

    /** The cursor as a value. */
    function State(): Cursor
      reads this
    {
      Cursor(msgI, glyphX, msgX)
    }

    ghost predicate Valid()
      reads this, msg
    {
      MsgOk(msg[..], font) && CursorOk(State())
    }

    /** The state at reset: a zero-filled buffer and a zero cursor. */
    constructor(font: seq<Glyph>)
      ensures Valid() && fresh(msg)
      ensures this.font == font && msg[..] == seq(16, i => NUL) && State() == Cursor(0, 0, 0)
    {
      this.font := font;
      msg := new char[16](i => NUL);
      msgI, glyphX, msgX := 0, 0, 0;
    }

    /**
     * The body of `main`'s loop before `draw_msg`: the first ten characters
     * become the message for `timer` and the cursor goes back to zero.  The
     * font must have glyphs for the characters from ' ' to 'F'.
     */
    method ShowTimer(timer: uint32)
      requires Valid() && |font| >= 39
      modifies msg, this`msgI, this`glyphX, this`msgX
      ensures Valid()
      ensures msg[..] == Message(timer) + old(msg[..])[10..]
      ensures State() == Cursor(0, 0, 0)
    {
      msg[0] := '=';
      msg[1] := HexDigit(Unsigned(timer / 0x1000_0000));
      msg[2] := HexDigit(Unsigned(timer / 0x100_0000));
      msg[3] := HexDigit(Unsigned(timer / 0x10_0000));
      msg[4] := HexDigit(Unsigned(timer / 0x1_0000));
      msg[5] := HexDigit(Unsigned(timer / 0x1000));
      msg[6] := HexDigit(Unsigned(timer / 0x100));
      msg[7] := HexDigit(Unsigned(timer / 0x10));
      msg[8] := HexDigit(Unsigned(timer));
      msg[9] := '!';
      glyphX, msgI, msgX := 0, 0, 0;
      MessageChars(timer);
      assert msg[..] == Message(timer) + old(msg[..])[10..];
    }

    /** `bitmap(y, x)`: one step of the state machine. */
    method Bitmap(y: uint16, x: uint16) returns (b: bv8)
      requires Valid()
      modifies this`msgI, this`glyphX, this`msgX
      ensures Valid()
      ensures (State(), b) == BitmapStep(msg[..], font, old(State()), y, x)
    {
      var ch := msg[msgI];
      if ch == NUL {
        msgI := 0;
        return 0xFF;
      }
      if msgX as int != x {
        msgX := x % 256;
        glyphX := (glyphX + 1) % 256;
      }
      if glyphX == 24 {
        glyphX := 0;
        msgI := msgI + 1;
        return 0xFF;
      }
      var glyph := font[ch as int - 0x20];
      var column := glyph[glyphX / 4];
      var bit := (column >> ((y / 16) % 8)) & 0x01;
      b := if bit != 0 then 0x00 else 0xFF;
    }

    /** The inner loop of `draw_msg` for row `y`: `epd_data(bitmap(x, y))` for `x` = 0, 8, ..., 120. */
    method StreamRow(m: Mcu, y: uint16)
      requires Valid() && m.Valid() && y < HEIGHT
      modifies m, this`msgI, this`glyphX, this`msgX
      ensures Valid() && m.Valid() && m.readCount == old(m.readCount)
      ensures State() == Row(msg[..], font, old(State()), y, 16).0
      ensures m.trace == old(m.trace) + OpsEvents(DataOps(Row(msg[..], font, old(State()), y, 16).1), m.input, m.readCount)
    {
      ghost var t0 := m.trace;
      ghost var c0 := State();
      var x: uint16 := 0;
      ghost var k := 0;
      while x < WIDTH
        invariant 0 <= k <= 16 && x == 8 * k
        invariant Valid() && m.Valid() && m.readCount == old(m.readCount)
        invariant State() == Row(msg[..], font, c0, y, k).0
        invariant m.trace == t0 + OpsEvents(DataOps(Row(msg[..], font, c0, y, k).1), m.input, m.readCount)
      {
        ghost var sent := Row(msg[..], font, c0, y, k).1;
        var b := Bitmap(x, y);
        assert Row(msg[..], font, c0, y, k + 1).1 == sent + [b];
        StreamData(m, b, t0, sent);
        x, k := x + 8, k + 1;
      }
      assert k == 16;
    }

    /** The loops of `draw_msg`: one row of sixteen bytes for each `y` of the panel. */
    method StreamBitmap(m: Mcu)
      requires Valid() && m.Valid()
      modifies m, this`msgI, this`glyphX, this`msgX
      ensures Valid() && m.Valid() && m.readCount == old(m.readCount)
      ensures State() == Frame(msg[..], font, old(State())).0
      ensures m.trace == old(m.trace) + OpsEvents(DataOps(Frame(msg[..], font, old(State())).1), m.input, m.readCount)
    {
      ghost var t0 := m.trace;
      ghost var c0 := State();
      var y: uint16 := 0;
      while y < HEIGHT
        invariant 0 <= y <= HEIGHT
        invariant Valid() && m.Valid() && m.readCount == old(m.readCount)
        invariant State() == Rows(msg[..], font, c0, y).0
        invariant m.trace == t0 + OpsEvents(DataOps(Rows(msg[..], font, c0, y).1), m.input, m.readCount)
      {
        ghost var sent := Rows(msg[..], font, c0, y).1;
        ghost var row := Row(msg[..], font, State(), y, 16).1;
        StreamRow(m, y);
        DataOpsAppend(sent, row);
        JoinOps(t0, DataOps(sent), DataOps(row), m.input, m.readCount);
        y := y + 1;
      }
    }

    /**
     * `draw_msg`: power the panel up, initialise it, open the full-panel
     * window, stream the frame, refresh the panel and put it to sleep.
     */
    method DrawMsg(m: Mcu)
      requires Valid() && m.Valid()
      modifies m, this`msgI, this`glyphX, this`msgX
      ensures Valid() && m.Valid() && m.readCount == old(m.readCount)
      ensures State() == Frame(msg[..], font, old(State())).0
      ensures m.trace == old(m.trace) + DrawEvents(Frame(msg[..], font, old(State())).1, m.input, m.readCount)
    {
      ghost var t0 := m.trace;
      EpdSetup(m);
      EpdReset(m);
      EpdInit(m);
      EpdDrawStart(m);
      StreamBitmap(m);
      EpdDisplay(m);
      EpdShutdown(m);
      ghost var input, r0 := m.input, m.readCount;
      AppendSeven(t0, SetupEvents(), ResetEvents(input, r0), OpsEvents(InitOps(), input, r0), OpsEvents(DrawStartOps(), input, r0),
        OpsEvents(DataOps(Frame(msg[..], font, old(State())).1), input, r0), OpsEvents(DisplayOps(), input, r0), ShutdownEvents(input, r0));
    }

    /** One pass of `main`'s loop after the wake-up: show the timer, then draw it. */
    method Refresh(m: Mcu, timer: uint32)
      requires Valid() && m.Valid() && |font| >= 39
      modifies m, msg, this`msgI, this`glyphX, this`msgX
      ensures Valid() && m.Valid() && m.readCount == old(m.readCount)
      ensures msg[..] == Message(timer) + old(msg[..])[10..]
      ensures State() == Frame(msg[..], font, Cursor(0, 0, 0)).0
      ensures m.trace == old(m.trace) + DrawEvents(Frame(msg[..], font, Cursor(0, 0, 0)).1, m.input, m.readCount)
    {
      ShowTimer(timer);
      DrawMsg(m);
    }
  }

  /** The events of `draw_msg` for a frame of bytes. */
  function DrawEvents(frame: seq<bv8>, input: nat -> bv8, r0: nat): seq<Event>
  {
    SetupEvents() + ResetEvents(input, r0) + OpsEvents(InitOps(), input, r0) + OpsEvents(DrawStartOps(), input, r0)
      + OpsEvents(DataOps(frame), input, r0) + OpsEvents(DisplayOps(), input, r0) + ShutdownEvents(input, r0)
  }
}
