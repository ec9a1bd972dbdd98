/**
 * The tag-address generator of server/autocor.py: a candidate 32-bit
 * address is a fixed 4-bit prefix above 28 random bits, and it is accepted
 * only when its autocorrelation against its own shifts is low, so that a
 * receiver is unlikely to lock onto a shifted copy of it.
 */
module Autocorrelation {
  import opened Wrappers
  import opened Bytes

  /** The number of set bits of a non-negative integer. */
  function PopCount(x: nat): nat
  {
    if x == 0 then 0 else x % 2 + PopCount(x / 2)
  }

  /** The number of `true` entries of a bit string. */
  function Ones(bits: seq<bool>): nat
  {
    if |bits| == 0 then 0 else Ones(bits[..|bits| - 1]) + (if bits[|bits| - 1] then 1 else 0)
  }

  /** `PopCount` counts the ones of the `n`-bit binary expansion. */
  lemma {:induction false} PopCountIsOnes(x: nat, n: nat)
    requires x < Pow2(n)
    ensures PopCount(x) == Ones(ToBits(x, n))
  {
    if n > 0 {
      PopCountIsOnes(x / 2, n - 1);
      var bits := ToBits(x, n);
      assert bits[..n - 1] == ToBits(x / 2, n - 1);
    }
  }

  /** An `n`-bit value has at most `n` set bits. */
  lemma {:induction false} PopCountBound(x: nat, n: nat)
    requires x < Pow2(n)
    ensures PopCount(x) <= n
  {
    if n > 0 {
      PopCountBound(x / 2, n - 1);
    }
  }

  lemma Pow2Of32()
    ensures Pow2(32) == 0x1_0000_0000
  {
    assert Pow2(8) == 0x100;
    Pow2Add(8, 8);
    assert Pow2(16) == 0x100 * 0x100;
    Pow2Add(16, 16);
    assert Pow2(32) == 0x1_0000 * 0x1_0000;
  }

  lemma {:induction false} Pow2Add(a: nat, b: nat)
    ensures Pow2(a + b) == Pow2(a) * Pow2(b)
  {
    if b > 0 {
      Pow2Add(a, b - 1);
    }
  }

  /**
   * `bitcount(x)`: add the low bit and shift right until nothing is left;
   * for `x >= 0` the loop ends and counts the set bits.
   */
  method BitCount(x: nat) returns (count: nat)
    ensures count == PopCount(x)
  {
    count := 0;
    var y := x;
    while y != 0
      invariant count + PopCount(y) == PopCount(x)
      decreases y
    {
      count := count + y % 2;
      y := y / 2;
    }
  }

  /**
   * The loop of `autocor` runs `shift` from -31 to 31; here `i` is
   * `shift + 31`, from 0 to 62, as a byte, so the shift amount is `31 - i`
   * to the right while `shift` is negative and `i - 31` to the left after.
   * The result is the 32-bit XOR of `x` with its shifted copy, that is
   * `xor` after the `& 0xFFFFFFFF` mask.
   */
  function ShiftXor(x: bv32, i: bv8): bv32
    requires i < 63
  {
    if i < 31 then (x >> (31 - i)) ^ x else (x << (i - 31)) ^ x
  }

  /** `32 - bitcount(xor)` for the shift `i - 31`. */
  function Agreement(x: bv32, i: bv8): int
    requires i < 63
  {
    32 - PopCount(ShiftXor(x, i) as nat)
  }

  /** The values for the first `n` shifts, starting at -31. */
  function AgreementsUpTo(x: bv32, n: bv8): (vals: seq<int>)
    requires n <= 63
    ensures |vals| == n as int
  {
    if n == 0 then [] else AgreementsUpTo(x, n - 1) + [Agreement(x, n - 1)]
  }

  /** The 63 values `autocor(x)` returns, for the shifts -31 to 31 in order. */
  function AutocorValues(x: bv32): (vals: seq<int>)
    ensures |vals| == 63
  {
    AgreementsUpTo(x, 63)
  }

  /** Entry `i` is the value for shift `i - 31`. */
  lemma {:induction false} AgreementsUpToIndex(x: bv32, n: bv8, i: bv8)
    requires i < n <= 63
    ensures AgreementsUpTo(x, n)[i as int] == Agreement(x, i)
  {
    var prev := AgreementsUpTo(x, n - 1);
    var last := Agreement(x, n - 1);
    assert AgreementsUpTo(x, n) == prev + [last];
    if i < n - 1 {
      AgreementsUpToIndex(x, n - 1, i);
      assert (prev + [last])[i as int] == prev[i as int];
    } else {
      assert i == n - 1;
      assert (prev + [last])[|prev|] == last;
    }
  }

  /** The loop body's choice between a right and a left shift. */
  method XorWithShift(x: bv32, i: bv8) returns (xor: bv32)
    requires i < 63
    ensures xor == ShiftXor(x, i)
  {
    if i < 31 {
      xor := (x >> (31 - i)) ^ x;
    } else {
      xor := (x << (i - 31)) ^ x;
    }
  }

  /** `autocor(x)` for a 32-bit `x`. */
  method Autocor(x: bv32) returns (vals: seq<int>)
    ensures vals == AutocorValues(x)
  {
    vals := [];
    var i: bv8 := 0;
    while i < 63
      invariant i <= 63
      invariant vals == AgreementsUpTo(x, i)
    {
      var xor := XorWithShift(x, i);
      var bits := BitCount(xor as nat);
      vals := vals + [32 - bits as int];
      i := i + 1;
    }
  }

  /** Every value lies in 0..32. */
  lemma AgreementBounds(x: bv32, i: bv8)
    requires i < 63
    ensures 0 <= Agreement(x, i) <= 32
  {
    Pow2Of32();
    PopCountBound(ShiftXor(x, i) as nat, 32);
  }

  /** A value agrees with itself everywhere: the unshifted entry, at index 31, is 32. */
  lemma AutocorCentre(x: bv32)
    ensures AutocorValues(x)[31] == 32
  {
    AgreementsUpToIndex(x, 63, 31);
    assert ShiftXor(x, 31) == 0;
  }

  /** How many of `vals` exceed `threshold`. */
  function CountAbove(vals: seq<int>, threshold: int): nat
  {
    if |vals| == 0 then 0
    else CountAbove(vals[..|vals| - 1], threshold) + (if vals[|vals| - 1] > threshold then 1 else 0)
  }

  /** How many of `vals` equal `threshold`. */
  function CountEqual(vals: seq<int>, threshold: int): nat
  {
    if |vals| == 0 then 0
    else CountEqual(vals[..|vals| - 1], threshold) + (if vals[|vals| - 1] == threshold then 1 else 0)
  }

  /**
   * The goodness loop of `mac`: `fails` counts values above the threshold;
   * `almost_fails` is counted under `elif v >= threshold`, which after the
   * first test only ever sees a value equal to the threshold.
   */
  method Goodness(vals: seq<int>, threshold: int) returns (fails: nat, almostFails: nat)
    ensures fails == CountAbove(vals, threshold)
    ensures almostFails == CountEqual(vals, threshold)
  {
    fails := 0;
    almostFails := 0;
    var i := 0;
    while i < |vals|
      invariant 0 <= i <= |vals|
      invariant fails == CountAbove(vals[..i], threshold)
      invariant almostFails == CountEqual(vals[..i], threshold)
    {
      var v := vals[i];
      assert vals[..i + 1][..i] == vals[..i];
      if v > threshold {
        fails := fails + 1;
      } else if v >= threshold {
        almostFails := almostFails + 1;
      }
      i := i + 1;
    }
    assert vals[..i] == vals;
  }

  /** `mac`'s acceptance test: at most one value above the threshold and at most two equal to it. */
  predicate Acceptable(x: bv32, threshold: int)
  {
    CountAbove(AutocorValues(x), threshold) <= 1 && CountEqual(AutocorValues(x), threshold) <= 2
  }

  /** If some value exceeds the threshold, every other value is counted as well. */
  lemma {:induction false} CountAboveTwo(vals: seq<int>, threshold: int, i: nat, j: nat)
    requires i < j < |vals| && vals[i] > threshold && vals[j] > threshold
    ensures CountAbove(vals, threshold) >= 2
  {
    var n := |vals| - 1;
    if j < n {
      CountAboveTwo(vals[..n], threshold, i, j);
    } else {
      CountAboveOne(vals[..n], threshold, i);
    }
  }

  lemma {:induction false} CountAboveOne(vals: seq<int>, threshold: int, i: nat)
    requires i < |vals| && vals[i] > threshold
    ensures CountAbove(vals, threshold) >= 1
  {
    var n := |vals| - 1;
    if i < n {
      CountAboveOne(vals[..n], threshold, i);
    }
  }

  /**
   * With the default threshold of 17 the unshifted value (32) already
   * exceeds it, so an accepted address has no other shift above 17.
   */
  lemma DefaultThresholdMeansNoOtherPeak(x: bv32)
    requires Acceptable(x, 17)
    ensures forall i :: 0 <= i < 63 && i != 31 ==> AutocorValues(x)[i] <= 17
  {
    var vals := AutocorValues(x);
    AutocorCentre(x);
    forall i | 0 <= i < 63 && i != 31
      ensures vals[i] <= 17
    {
      if vals[i] > 17 {
        if i < 31 {
          CountAboveTwo(vals, 17, i, 31);
        } else {
          CountAboveTwo(vals, 17, 31, i);
        }
      }
    }
  }

  /** `(prefix << 28) | randbits(28)`. */
  function Candidate(prefix: bv32, random: bv32): bv32
  {
    (prefix << 28) | random
  }

  /** The random part is the candidate's low 28 bits, and a 4-bit prefix is its top nibble. */
  lemma CandidateFields(prefix: bv32, random: bv32)
    requires prefix < 16 && random < 0x1000_0000
    ensures Candidate(prefix, random) & 0x0FFF_FFFF == random
    ensures Candidate(prefix, random) >> 28 == prefix
  {
  }

  /**
   * `mac()` without the debug printing: candidates are drawn, in order,
   * from `draws` (the successive `randbits(28)` results) until one is
   * acceptable.  `used` is the number of draws taken; `None` means the
   * draws ran out first.  `prefix` is the 4-bit prefix (0x5 by default,
   * 0xa from the script) and every draw is below 2^28, as `randbits(28)` is.
   */
  method Mac(prefix: bv32, threshold: int, draws: seq<bv32>) returns (x: Option<bv32>, used: nat)
    requires prefix < 16
    requires forall j :: 0 <= j < |draws| ==> draws[j] < 0x1000_0000
    ensures used <= |draws|
    ensures x.None? ==> used == |draws|
    ensures x.Some? ==> 0 < used && x.value == Candidate(prefix, draws[used - 1]) && Acceptable(x.value, threshold)
    ensures forall j ::
      (0 <= j < |draws| && j < used - (if x.Some? then 1 else 0)) ==> !Acceptable(Candidate(prefix, draws[j]), threshold)
  {
    used := 0;
    while used < |draws|
      invariant used <= |draws|
      invariant forall j :: 0 <= j < used ==> !Acceptable(Candidate(prefix, draws[j]), threshold)
    {
      var c := Candidate(prefix, draws[used]);
      var vals := Autocor(c);
      var fails, almostFails := Goodness(vals, threshold);
      used := used + 1;
      if !(fails > 1 || almostFails > 2) {
        return Some(c), used;
      }
    }
    x := None;
  }
}
