/**
 * Host-side byte arithmetic: Python integers restricted to the ranges that
 * `bytes`, `bytearray` and `struct` accept, MSB-first bit strings, and the
 * little- and big-endian packings used by `struct.pack`/`struct.unpack`.
 */
module Bytes {

  type byte = x: int | 0 <= x < 0x100
  type uint16 = x: int | 0 <= x < 0x1_0000
  type uint32 = x: int | 0 <= x < 0x1_0000_0000

  function Pow2(n: nat): (r: nat)
    ensures r > 0
  {
    if n == 0 then 1 else 2 * Pow2(n - 1)
  }

  function Pow256(n: nat): (r: nat)
    ensures r > 0
  {
    if n == 0 then 1 else 256 * Pow256(n - 1)
  }

  /** Python's `v & (1 << k) != 0` for a non-negative `v`: bit `k` after `k` halvings. */
  function Bit(v: nat, k: nat): bool
  {
    if k == 0 then v % 2 == 1 else Bit(v / 2, k - 1)
  }

  // ---------------------------------------------------------------------------
  // MSB-first bit strings

  /** The low `n` bits of `v`, most significant first (`'{:0nb}'.format(v)`). */
  function ToBits(v: nat, n: nat): (r: seq<bool>)
    ensures |r| == n
  {
    if n == 0 then [] else ToBits(v / 2, n - 1) + [v % 2 == 1]
  }

  /** The value of an MSB-first bit string (`din = din << 1 | bit`, repeated). */
  function FromBits(bits: seq<bool>): (r: nat)
    ensures r < Pow2(|bits|)
  {
    if |bits| == 0 then 0
    else FromBits(bits[..|bits| - 1]) * 2 + (if bits[|bits| - 1] then 1 else 0)
  }

  lemma {:induction false} ToBitsOfFromBits(bits: seq<bool>)
    ensures ToBits(FromBits(bits), |bits|) == bits
  {
    if |bits| > 0 {
      var init := bits[..|bits| - 1];
      ToBitsOfFromBits(init);
      assert init + [bits[|bits| - 1]] == bits;
    }
  }

  lemma {:induction false} FromBitsOfToBits(v: nat, n: nat)
    requires v < Pow2(n)
    ensures FromBits(ToBits(v, n)) == v
  {
    if n > 0 {
      FromBitsOfToBits(v / 2, n - 1);
      assert ToBits(v, n)[..n - 1] == ToBits(v / 2, n - 1);
    }
  }

  /** Bit `k` (counting from the most significant, 0-based) of `ToBits(v, n)` is bit `n-1-k` of `v`. */
  lemma {:induction false} ToBitsAt(v: nat, n: nat, k: nat)
    requires k < n
    ensures ToBits(v, n)[k] == Bit(v, n - 1 - k)
  {
    if k == n - 1 {
      assert ToBits(v, n)[k] == (v % 2 == 1);
    } else {
      ToBitsAt(v / 2, n - 1, k);
    }
  }

  /** The byte `b` as eight bits, most significant first. */
  function ByteBits(b: byte): seq<bool>
  {
    ToBits(b, 8)
  }

  /** A byte string as a bit string, each byte most significant bit first. */
  function BitsOf(bs: seq<byte>): (r: seq<bool>)
    ensures |r| == 8 * |bs|
  {
    if |bs| == 0 then [] else ByteBits(bs[0]) + BitsOf(bs[1..])
  }

  lemma {:induction false} BitsOfAppend(a: seq<byte>, b: seq<byte>)
    ensures BitsOf(a + b) == BitsOf(a) + BitsOf(b)
  {
    if |a| > 0 {
      assert (a + b)[1..] == a[1..] + b;
      BitsOfAppend(a[1..], b);
    } else {
      assert a + b == b;
    }
  }

  lemma BitsOfSnoc(a: seq<byte>, x: byte)
    ensures BitsOf(a + [x]) == BitsOf(a) + ByteBits(x)
  {
    BitsOfAppend(a, [x]);
    assert [x][1..] == [];
  }

  /** Regroups a bit string into bytes, eight bits at a time, most significant first. */
  function BytesOfBits(bits: seq<bool>): (r: seq<byte>)
    requires |bits| % 8 == 0
    ensures |r| == |bits| / 8
  {
    if |bits| == 0 then [] else [FromBits(bits[..8]) as byte] + BytesOfBits(bits[8..])
  }

  lemma {:induction false} BytesOfBitsOf(bs: seq<byte>)
    ensures BytesOfBits(BitsOf(bs)) == bs
  {
    if |bs| > 0 {
      var bits := BitsOf(bs);
      assert bits[..8] == ByteBits(bs[0]);
      assert bits[8..] == BitsOf(bs[1..]);
      FromBitsOfToBits(bs[0], 8);
      BytesOfBitsOf(bs[1..]);
    }
  }

  // ---------------------------------------------------------------------------
  // struct packings

  /** `n` bytes of `v`, least significant first (`struct.pack('<I')` has n = 4, `'<H'` n = 2). */
  function LE(v: nat, n: nat): (r: seq<byte>)
    ensures |r| == n
  {
    if n == 0 then [] else [v % 256] + LE(v / 256, n - 1)
  }

  /** Little-endian value of a byte string (`struct.unpack('<I')`, `'<H'`). */
  function FromLE(bs: seq<byte>): (r: nat)
    ensures r < Pow256(|bs|)
  {
    if |bs| == 0 then 0 else bs[0] + 256 * FromLE(bs[1..])
  }

  lemma {:induction false} FromLEOfLE(v: nat, n: nat)
    requires v < Pow256(n)
    ensures FromLE(LE(v, n)) == v
  {
    if n > 0 {
      FromLEOfLE(v / 256, n - 1);
      assert LE(v, n)[1..] == LE(v / 256, n - 1);
    }
  }

  lemma {:induction false} LEOfFromLE(bs: seq<byte>)
    ensures LE(FromLE(bs), |bs|) == bs
  {
    if |bs| > 0 {
      LEOfFromLE(bs[1..]);
      assert [bs[0]] + bs[1..] == bs;
    }
  }

  /** `n` bytes of `v`, most significant first (`struct.pack('>I')` has n = 4). */
  function BE(v: nat, n: nat): (r: seq<byte>)
    ensures |r| == n
  {
    if n == 0 then [] else BE(v / 256, n - 1) + [v % 256]
  }

  /** Big-endian value of a byte string (`struct.unpack('>I')`). */
  function FromBE(bs: seq<byte>): (r: nat)
    ensures r < Pow256(|bs|)
  {
    if |bs| == 0 then 0 else FromBE(bs[..|bs| - 1]) * 256 + bs[|bs| - 1]
  }

  lemma {:induction false} FromBEOfBE(v: nat, n: nat)
    requires v < Pow256(n)
    ensures FromBE(BE(v, n)) == v
  {
    if n > 0 {
      FromBEOfBE(v / 256, n - 1);
      assert BE(v, n)[..n - 1] == BE(v / 256, n - 1);
    }
  }

  lemma {:induction false} BEOfFromBE(bs: seq<byte>)
    ensures BE(FromBE(bs), |bs|) == bs
  {
    if |bs| > 0 {
      var init := bs[..|bs| - 1];
      BEOfFromBE(init);
      assert init + [bs[|bs| - 1]] == bs;
    }
  }

  /** Python's `s[i:j]` for non-negative `i` and `j`: both ends are clipped to the length. */
  function Slice<T>(s: seq<T>, i: nat, j: nat): (r: seq<T>)
    ensures |r| == if i < j && i < |s| then (if j < |s| then j else |s|) - i else 0
    ensures forall k :: 0 <= k < |r| ==> r[k] == s[i + k]
  {
    var hi := if j < |s| then j else |s|;
    if i < hi then s[i..hi] else []
  }

  /** `bytes(n)`: n zero bytes. */
  function Zeros(n: nat): (r: seq<byte>)
    ensures |r| == n && forall k :: 0 <= k < n ==> r[k] == 0
  {
    seq(n, _ => 0)
  }
}
