/** Bytes and the 16- and 32-bit numbers they spell in network order. */
module Octets {
  import opened Chains

  type Byte = x: int | 0 <= x < 256
  type Word16 = x: int | 0 <= x < 0x1_0000
  type Uint32 = n: nat | n < 0x1_0000_0000
  type Bytes = seq<Byte>

  function Zeros(n: nat): (s: Bytes)
    ensures |s| == n && forall i :: 0 <= i < n ==> s[i] == 0
  {
    seq(n, _ => 0)
  }

  function Word(hi: Byte, lo: Byte): Word16 {
    hi * 256 + lo
  }

  function WordAt(s: Bytes, i: nat): Word16
    requires i + 2 <= |s|
  {
    Word(s[i], s[i + 1])
  }

  function Short(w: Word16): (s: Bytes)
    ensures |s| == 2 && WordAt(s, 0) == w
  {
    [w / 256, w % 256]
  }

  function Long(n: Uint32): (s: Bytes)
    ensures |s| == 4
  {
    Short(n / 0x1_0000) + Short(n % 0x1_0000)
  }

  function LongAt(s: Bytes, i: nat): Uint32
    requires i + 4 <= |s|
  {
    WordAt(s, i) * 0x1_0000 + WordAt(s, i + 2)
  }

  /** What is written is what is read. */
  lemma ShortRoundTrip(s: Bytes, at: nat, w: Word16)
    requires at + 2 <= |s| && s[at..at + 2] == Short(w)
    ensures WordAt(s, at) == w
  {
    assert s[at] == s[at..at + 2][0] && s[at + 1] == s[at..at + 2][1];
  }

  lemma LongRoundTrip(s: Bytes, at: nat, n: Uint32)
    requires at + 4 <= |s| && s[at..at + 4] == Long(n)
    ensures LongAt(s, at) == n
  {
    assert s[at..at + 2] == s[at..at + 4][..2] && s[at + 2..at + 4] == s[at..at + 4][2..];
    hide Short, WordAt;
    ShortRoundTrip(s, at, n / 0x1_0000);
    ShortRoundTrip(s, at + 2, n % 0x1_0000);
  }

  /** The bitwise exclusive-or of the last n bits. */
  function XorBits(a: nat, b: nat, n: nat): (r: nat)
    ensures r < Pow2(n)
    decreases n
  {
    if n == 0 then 0 else 2 * XorBits(a / 2, b / 2, n - 1) + (if a % 2 == b % 2 then 0 else 1)
  }

  lemma {:induction false} XorBitsTwice(a: nat, b: nat, n: nat)
    requires a < Pow2(n)
    ensures XorBits(XorBits(a, b, n), b, n) == a
    decreases n
  {
    if n > 0 {
      XorBitsTwice(a / 2, b / 2, n - 1);
    }
  }

  lemma Pow2Eight()
    ensures Pow2(8) == 256
  {
    Pow2Five();
  }

  function Xor(a: Byte, b: Byte): Byte {
    Pow2Eight();
    XorBits(a, b, 8)
  }

  lemma XorTwice(a: Byte, b: Byte)
    ensures Xor(Xor(a, b), b) == a
  {
    Pow2Eight();
    XorBitsTwice(a, b, 8);
  }

  lemma {:induction false} XorBitsCommute(a: nat, b: nat, n: nat)
    ensures XorBits(a, b, n) == XorBits(b, a, n)
    decreases n
  {
    if n > 0 {
      XorBitsCommute(a / 2, b / 2, n - 1);
    }
  }

  /** Different bytes stay different. */
  lemma XorInjective(a: Byte, b: Byte, c: Byte)
    requires Xor(a, b) == Xor(a, c)
    ensures b == c
  {
    XorBitsCommute(a, b, 8);
    XorBitsCommute(a, c, 8);
    XorTwice(b, a);
    XorTwice(c, a);
  }
}
