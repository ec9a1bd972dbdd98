/** Generic facts about sequence concatenation, stated once so that proofs can cite them. */
module Sequences {

  lemma AppendAssoc<T>(a: seq<T>, b: seq<T>, c: seq<T>)
    ensures a + b + c == a + (b + c)
  {
  }

  lemma AppendFour<T>(s: seq<T>, a: T, b: T, c: T, d: T)
    ensures s + [a] + [b, c] + [d] == s + [a, b, c, d]
  {
  }

  lemma AppendToEmpty<T>(s: seq<T>)
    ensures [] + s == s
  {
  }

  lemma TakeSnoc<T>(s: seq<T>, n: nat)
    requires 0 < n <= |s|
    ensures s[..n] == s[..n - 1] + [s[n - 1]]
  {
  }

  lemma TakeTake<T>(s: seq<T>, n: nat)
    requires 0 < n <= |s|
    ensures s[..n][..n - 1] == s[..n - 1]
  {
  }

  lemma EqualEight<T>(a: seq<T>, b: seq<T>)
    requires |a| == 8 && |b| == 8
    requires a[0] == b[0] && a[1] == b[1] && a[2] == b[2] && a[3] == b[3]
    requires a[4] == b[4] && a[5] == b[5] && a[6] == b[6] && a[7] == b[7]
    ensures a == b
  {
  }

  lemma AppendFive<T>(s: seq<T>, a: seq<T>, b: seq<T>, c: seq<T>, d: seq<T>)
    ensures s + (a + b + c + d) == s + a + b + c + d
  {
  }

  /** Fourteen one-element appends are the fourteen-element display. */
  lemma SnocFourteen<T>(a0: T, a1: T, a2: T, a3: T, a4: T, a5: T, a6: T, a7: T, a8: T, a9: T, a10: T, a11: T, a12: T, a13: T)
    ensures [a0] + [a1] + [a2] + [a3] + [a4] + [a5] + [a6] + [a7] + [a8] + [a9] + [a10] + [a11] + [a12] + [a13]
      == [a0, a1, a2, a3, a4, a5, a6, a7, a8, a9, a10, a11, a12, a13]
  {
  }

  lemma AppendSeven<T>(t0: seq<T>, a: seq<T>, b: seq<T>, c: seq<T>, d: seq<T>, e: seq<T>, f: seq<T>, g: seq<T>)
    ensures t0 + a + b + c + d + e + f + g == t0 + (a + b + c + d + e + f + g)
  {
  }
}
