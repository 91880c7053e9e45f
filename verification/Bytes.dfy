/** Bytes and fixed-width integers in the two byte orders. */
module Bytes {

  type byte = x: int | 0 <= x < 256 witness 0

  function Pow256(width: nat): (p: nat)
    ensures 0 < p
  {
    if width == 0 then 1 else 256 * Pow256(width - 1)
  }

  lemma Pow256Values()
    ensures Pow256(1) == 256 && Pow256(2) == 65536 && Pow256(4) == 4294967296
  {
    assert Pow256(1) == 256 * Pow256(0);
    assert Pow256(2) == 256 * Pow256(1);
    assert Pow256(3) == 256 * Pow256(2);
    assert Pow256(4) == 256 * Pow256(3);
  }

  function LittleEndian(n: nat, width: nat): (b: seq<byte>)
    ensures |b| == width
  {
    if width == 0 then [] else [n % 256] + LittleEndian(n / 256, width - 1)
  }

  function FromLittleEndian(b: seq<byte>): nat {
    if b == [] then 0 else b[0] + 256 * FromLittleEndian(b[1..])
  }

  function BigEndian(n: nat, width: nat): (b: seq<byte>)
    ensures |b| == width
  {
    if width == 0 then [] else BigEndian(n / 256, width - 1) + [n % 256]
  }

  function FromBigEndian(b: seq<byte>): nat {
    if b == [] then 0 else 256 * FromBigEndian(b[..|b| - 1]) + b[|b| - 1]
  }

  lemma {:induction false} LittleEndianRoundTrip(n: nat, width: nat)
    requires n < Pow256(width)
    ensures FromLittleEndian(LittleEndian(n, width)) == n
  {
    if width > 0 {
      LittleEndianRoundTrip(n / 256, width - 1);
      assert LittleEndian(n, width)[1..] == LittleEndian(n / 256, width - 1);
    }
  }

  lemma {:induction false} FromLittleEndianBound(b: seq<byte>)
    ensures FromLittleEndian(b) < Pow256(|b|)
  {
    if b != [] { FromLittleEndianBound(b[1..]); }
  }

  lemma {:induction false} LittleEndianOfBytes(b: seq<byte>)
    ensures LittleEndian(FromLittleEndian(b), |b|) == b
  {
    if b != [] { LittleEndianOfBytes(b[1..]); }
  }

  lemma {:induction false} BigEndianRoundTrip(n: nat, width: nat)
    requires n < Pow256(width)
    ensures FromBigEndian(BigEndian(n, width)) == n
  {
    if width > 0 {
      BigEndianRoundTrip(n / 256, width - 1);
      assert BigEndian(n, width)[..width - 1] == BigEndian(n / 256, width - 1);
    }
  }

  lemma {:induction false} FromBigEndianBound(b: seq<byte>)
    ensures FromBigEndian(b) < Pow256(|b|)
  {
    if b != [] { FromBigEndianBound(b[..|b| - 1]); }
  }

  /** `part` stands in `whole` at position `at`. */
  predicate StandsAt(whole: seq<byte>, at: nat, part: seq<byte>) {
    at + |part| <= |whole| && whole[at..at + |part|] == part
  }

  lemma StandsSplit(whole: seq<byte>, at: nat, a: seq<byte>, b: seq<byte>)
    requires StandsAt(whole, at, a + b)
    ensures StandsAt(whole, at, a) && StandsAt(whole, at + |a|, b)
  {
    var s := whole[at..at + |a + b|];
    assert s[..|a|] == a && s[|a|..] == b;
  }

  lemma StandsBetween(pre: seq<byte>, part: seq<byte>, post: seq<byte>)
    ensures StandsAt(pre + part + post, |pre|, part)
  {}
}
