/**
 * The boot-screen encoder of server/provision.py: the image's bits, most
 * significant bit of each byte first, are run-length encoded into one byte
 * per run (`colour << 7 | count`, at most 127 pixels a run), and each
 * entry is written to `provision.h` with bit 7 inverted.
 */
module Provision {
  import opened Bytes
  import opened Sequences

  /** The colour bit of an entry (bit 7). */
  function Colour(e: byte): bool
  {
    e >= 128
  }

  /** The run length of an entry (bits 0..6). */
  function RunLength(e: byte): nat
  {
    e % 128
  }

  /** `last << 7 | count`, for a count that fits in seven bits. */
  function Entry(colour: bool, count: nat): (e: byte)
    requires count < 128
    ensures Colour(e) == colour && RunLength(e) == count
  {
    (if colour then 128 else 0) + count
  }

  function Repeat(b: bool, n: nat): (r: seq<bool>)
    ensures |r| == n && forall k :: 0 <= k < n ==> r[k] == b
  {
    seq(n, _ => b)
  }

  /** The pixels a list of entries stands for: each entry's colour, repeated its run length. */
  function Expand(es: seq<byte>): seq<bool>
  {
    if |es| == 0 then [] else Expand(es[..|es| - 1]) + Repeat(Colour(es[|es| - 1]), RunLength(es[|es| - 1]))
  }

  /** The sum of the run lengths. */
  function TotalLength(es: seq<byte>): nat
  {
    if |es| == 0 then 0 else TotalLength(es[..|es| - 1]) + RunLength(es[|es| - 1])
  }

  /**
   * The shape of `rle`'s output: no run is empty, and two neighbouring
   * entries have the same colour only when the first is a full run of 127.
   */
  ghost predicate Canonical(es: seq<byte>)
  {
    && (forall i :: 0 <= i < |es| ==> RunLength(es[i]) >= 1)
    && (forall i :: 0 <= i < |es| - 1 && Colour(es[i]) == Colour(es[i + 1]) ==> RunLength(es[i]) == 127)
  }

  lemma ExpandSnoc(es: seq<byte>, e: byte)
    ensures Expand(es + [e]) == Expand(es) + Repeat(Colour(e), RunLength(e))
  {
    assert (es + [e])[..|es|] == es;
  }

  /** The number of pixels is the sum of the counts. */
  lemma {:induction false} ExpandLength(es: seq<byte>)
    ensures |Expand(es)| == TotalLength(es)
  {
    if |es| > 0 {
      ExpandLength(es[..|es| - 1]);
    }
  }

  /** Expanding from the front: the first entry's run, then the rest. */
  lemma {:induction false} ExpandFront(es: seq<byte>)
    requires |es| > 0
    ensures Expand(es) == Repeat(Colour(es[0]), RunLength(es[0])) + Expand(es[1..])
  {
    if |es| == 1 {
      assert es[..0] == [] && es[1..] == [];
    } else {
      var init := es[..|es| - 1];
      var e := es[|es| - 1];
      ExpandFront(init);
      assert init[0] == es[0];
      assert init[1..] + [e] == es[1..];
      ExpandSnoc(init[1..], e);
    }
  }

  /** Each entry stands for at least one pixel, so there are never more entries than pixels. */
  lemma {:induction false} EntriesAtMostPixels(es: seq<byte>)
    requires Canonical(es)
    ensures |es| <= |Expand(es)|
  {
    if |es| > 0 {
      var init := es[..|es| - 1];
      assert Canonical(init);
      EntriesAtMostPixels(init);
    }
  }

  /**
   * A pixel sequence has only one canonical encoding: two canonical entry
   * lists that expand to the same pixels are equal.
   */
  lemma {:induction false} CanonicalUnique(a: seq<byte>, b: seq<byte>)
    requires Canonical(a) && Canonical(b) && Expand(a) == Expand(b)
    ensures a == b
  {
    if |a| == 0 || |b| == 0 {
      if |a| > 0 {
        ExpandNonEmpty(a);
      }
      if |b| > 0 {
        ExpandNonEmpty(b);
      }
    } else {
      SameFirstEntry(a, b);
      CanonicalTail(a);
      CanonicalTail(b);
      CanonicalUnique(a[1..], b[1..]);
      assert a == [a[0]] + a[1..] && b == [b[0]] + b[1..];
    }
  }

  /** Appending an entry keeps the list canonical when the run is not empty and merges with no short run. */
  lemma CanonicalSnoc(es: seq<byte>, e: byte)
    requires Canonical(es) && RunLength(e) >= 1
    requires |es| > 0 && Colour(es[|es| - 1]) == Colour(e) ==> RunLength(es[|es| - 1]) == 127
    ensures Canonical(es + [e])
  {
    var r := es + [e];
    forall i | 0 <= i < |r| - 1 && Colour(r[i]) == Colour(r[i + 1])
      ensures RunLength(r[i]) == 127
    {
      if i < |es| - 1 {
        assert r[i] == es[i] && r[i + 1] == es[i + 1];
      }
    }
  }

  lemma ExpandNonEmpty(es: seq<byte>)
    requires Canonical(es) && |es| > 0
    ensures |Expand(es)| > 0
  {
    ExpandFront(es);
  }

  lemma CanonicalTail(es: seq<byte>)
    requires Canonical(es) && |es| > 0
    ensures Canonical(es[1..])
  {
  }

  /** An entry is determined by its colour and run length. */
  lemma EntryOfFields(e: byte)
    ensures e == Entry(Colour(e), RunLength(e))
  {
  }

  /** Two canonical lists expanding to the same pixels start with the same entry, and their tails expand alike. */
  lemma SameFirstEntry(a: seq<byte>, b: seq<byte>)
    requires Canonical(a) && Canonical(b) && Expand(a) == Expand(b)
    requires |a| > 0 && |b| > 0
    ensures a[0] == b[0] && Expand(a[1..]) == Expand(b[1..])
  {
    FirstRunPixel(a, 0);
    FirstRunPixel(b, 0);
    FirstRunNotShorter(a, b);
    FirstRunNotShorter(b, a);
    EntryOfFields(a[0]);
    EntryOfFields(b[0]);
    ExpandFront(a);
    ExpandFront(b);
    var n := RunLength(a[0]);
    assert Expand(a[1..]) == Expand(a)[n..];
    assert Expand(b[1..]) == Expand(b)[n..];
  }

  /** The first run covers the first pixels. */
  lemma FirstRunPixel(es: seq<byte>, k: nat)
    requires |es| > 0 && k < RunLength(es[0])
    ensures k < |Expand(es)| && Expand(es)[k] == Colour(es[0])
  {
    ExpandFront(es);
  }

  /** The pixel right after the first run has the second entry's colour. */
  lemma NextRunPixel(es: seq<byte>)
    requires Canonical(es) && |es| > 1
    ensures RunLength(es[0]) < |Expand(es)| && Expand(es)[RunLength(es[0])] == Colour(es[1])
  {
    ExpandFront(es);
    var rest := es[1..];
    assert rest[0] == es[1] && RunLength(rest[0]) >= 1;
    FirstRunPixel(rest, 0);
  }

  /** A single entry expands to exactly its run. */
  lemma SingleRun(es: seq<byte>)
    requires |es| == 1
    ensures |Expand(es)| == RunLength(es[0])
  {
    ExpandFront(es);
    assert es[1..] == [];
  }

  /** Of two canonical lists expanding to the same pixels, neither first run is shorter than the other. */
  lemma FirstRunNotShorter(a: seq<byte>, b: seq<byte>)
    requires Canonical(a) && Canonical(b) && Expand(a) == Expand(b)
    requires |a| > 0 && |b| > 0
    ensures RunLength(a[0]) >= RunLength(b[0])
  {
    var n := RunLength(a[0]);
    if n < RunLength(b[0]) {
      FirstRunPixel(b, n);
      FirstRunPixel(b, 0);
      FirstRunPixel(a, 0);
      if |a| == 1 {
        SingleRun(a);
      } else {
        NextRunPixel(a);
      }
    }
  }

  /**
   * `rle` over the bit string: `last` and `count` follow the current run;
   * a run is closed when the colour changes or it reaches 127 pixels.  The
   * source indexes `bits[0]`, so the input must not be empty.
   */
  method RleBits(bits: seq<bool>) returns (out: seq<byte>)
    requires |bits| > 0
    ensures Expand(out) == bits
    ensures Canonical(out)
    ensures |out| > 0 && Colour(out[0]) == bits[0]
  {
    var last := bits[0];
    var count := 1;
    out := [];
    var i := 1;
    while i < |bits|
      invariant 1 <= i <= |bits|
      invariant 1 <= count <= 127
      invariant Expand(out) + Repeat(last, count) == bits[..i]
      invariant Canonical(out)
      invariant |out| > 0 ==> Colour(out[|out| - 1]) == last ==> RunLength(out[|out| - 1]) == 127
      invariant |out| > 0 ==> Colour(out[0]) == bits[0]
      invariant |out| == 0 ==> last == bits[0]
    {
      var b := bits[i];
      assert bits[..i + 1] == bits[..i] + [b];
      if b == last && count != 127 {
        assert Expand(out) + Repeat(last, count + 1) == bits[..i + 1] by {
          assert Repeat(last, count + 1) == Repeat(last, count) + [b];
          AppendAssoc(Expand(out), Repeat(last, count), [b]);
        }
        count := count + 1;
      } else {
        var e := Entry(last, count);
        assert Expand(out + [e]) + Repeat(b, 1) == bits[..i + 1] by {
          ExpandSnoc(out, e);
          assert Repeat(b, 1) == [b];
        }
        CanonicalSnoc(out, e);
        assert (out + [e])[0] == if |out| > 0 then out[0] else e;
        out := out + [e];
        last := b;
        count := 1;
      }
      i := i + 1;
    }
    var e := Entry(last, count);
    ExpandSnoc(out, e);
    CanonicalSnoc(out, e);
    out := out + [e];
    assert bits[..i] == bits;
  }

  /** `rle(b)`: the bits of the bytes `b`, most significant bit of each byte first. */
  method Rle(data: seq<byte>) returns (out: seq<byte>)
    requires |data| > 0
    ensures Expand(out) == BitsOf(data)
    ensures Canonical(out)
    ensures Colour(out[0]) == BitsOf(data)[0]
    ensures |out| <= 8 * |data|
  {
    out := RleBits(BitsOf(data));
    EntriesAtMostPixels(out);
  }

  /** `b ^ 0x80`. */
  function Flip(e: byte): (r: byte)
    ensures Colour(r) == !Colour(e) && RunLength(r) == RunLength(e)
  {
    if e >= 128 then e - 128 else e + 128
  }

  lemma FlipFlip(e: byte)
    ensures Flip(Flip(e)) == e
  {
  }

  /** The `bootscreen` array and `bootscreen_len` written to `provision.h`. */
  method Emit(entries: seq<byte>) returns (bootscreen: seq<byte>, bootscreenLen: nat)
    ensures |bootscreen| == |entries| && bootscreenLen == |entries|
    ensures forall i :: 0 <= i < |entries| ==> bootscreen[i] == Flip(entries[i])
  {
    bootscreen := [];
    var i := 0;
    while i < |entries|
      invariant 0 <= i <= |entries|
      invariant |bootscreen| == i
      invariant forall k :: 0 <= k < i ==> bootscreen[k] == Flip(entries[k])
    {
      bootscreen := bootscreen + [Flip(entries[i])];
      i := i + 1;
    }
    bootscreenLen := |entries|;
  }

  /**
   * Undoing the flip of every emitted byte gives back entries that expand
   * to the image's bits; and the 128 x 250 boot screen (4000 bytes) gives
   * at most 32000 entries, within `bootscreen_len`'s `uint16_t`.
   */
  lemma {:induction false} BootscreenDecodes(data: seq<byte>, entries: seq<byte>, bootscreen: seq<byte>)
    requires |data| == 4000
    requires Expand(entries) == BitsOf(data) && Canonical(entries)
    requires |bootscreen| == |entries| && forall i :: 0 <= i < |entries| ==> bootscreen[i] == Flip(entries[i])
    ensures Expand(seq(|bootscreen|, i requires 0 <= i < |bootscreen| => Flip(bootscreen[i]))) == BitsOf(data)
    ensures |bootscreen| < 0x1_0000
  {
    var unflipped := seq(|bootscreen|, i requires 0 <= i < |bootscreen| => Flip(bootscreen[i]));
    forall i | 0 <= i < |entries|
      ensures unflipped[i] == entries[i]
    {
      FlipFlip(entries[i]);
    }
    assert unflipped == entries;
    EntriesAtMostPixels(entries);
  }
}
