/** Bytes, opaque float samples and big-endian integers, shared by every codec. */
module Bytes {
  type byte = x: int | 0 <= x < 256
  type u32 = x: int | 0 <= x < 0x1_0000_0000
  type u64 = x: int | 0 <= x < 0x1_0000_0000_0000_0000

  /** A std::string: bytes, of no particular encoding. */
  type Str = seq<byte>

  const TWO62: nat := 0x4000_0000_0000_0000

  datatype Option<+T> = None | Some(value: T)

  /** A 32-bit float, as its four bytes in memory order. Nothing here does arithmetic on samples. */
  datatype Sample = Sample(b0: byte, b1: byte, b2: byte, b3: byte)

  /** 0.0f, which is also what memset(dst, 0, n) leaves in every float. */
  const SILENCE := Sample(0, 0, 0, 0)

  function Zeros(n: nat): (s: seq<Sample>)
    ensures |s| == n && forall i :: 0 <= i < n ==> s[i] == SILENCE
  {
    seq(n, _ => SILENCE)
  }

  function Pow256(n: nat): (r: nat)
    ensures r > 0
  {
    if n == 0 then 1 else 256 * Pow256(n - 1)
  }

  /** The low `n` bytes of `v`, most significant first. */
  function BigEndian(v: nat, n: nat): (s: seq<byte>)
    ensures |s| == n
  {
    if n == 0 then [] else BigEndian(v / 256, n - 1) + [v % 256]
  }

  function FromBigEndian(s: seq<byte>): (v: nat)
  {
    if s == [] then 0 else 256 * FromBigEndian(s[..|s| - 1]) + s[|s| - 1]
  }

  lemma Pow256Values()
    ensures Pow256(1) == 0x100 && Pow256(2) == 0x1_0000 && Pow256(4) == 0x1_0000_0000
    ensures Pow256(8) == 0x1_0000_0000_0000_0000
    ensures Pow256(3) == 0x100_0000 && Pow256(7) == 0x100_0000_0000_0000
  {
    assert Pow256(3) == 256 * Pow256(2);
    assert Pow256(4) == 256 * Pow256(3);
    assert Pow256(5) == 256 * Pow256(4);
    assert Pow256(6) == 256 * Pow256(5);
    assert Pow256(7) == 256 * Pow256(6);
  }

  /** Writing then reading gives the value back, for every value that fits. */
  lemma {:induction false} BigEndianRoundTrip(v: nat, n: nat)
    requires v < Pow256(n)
    ensures FromBigEndian(BigEndian(v, n)) == v
  {
    if n > 0 {
      BigEndianRoundTrip(v / 256, n - 1);
      var s := BigEndian(v, n);
      assert s[..|s| - 1] == BigEndian(v / 256, n - 1);
    }
  }

  /** Reading then writing gives the bytes back, and what is read fits in that many bytes. */
  lemma {:induction false} BigEndianInverse(s: seq<byte>)
    ensures FromBigEndian(s) < Pow256(|s|)
    ensures BigEndian(FromBigEndian(s), |s|) == s
  {
    if s != [] {
      var init, last := s[..|s| - 1], s[|s| - 1];
      BigEndianInverse(init);
      var v := FromBigEndian(s);
      assert v / 256 == FromBigEndian(init) && v % 256 == last;
      assert s == init + [last];
    }
  }

  /** The leading byte carries the highest power of 256. */
  lemma {:induction false} FromBigEndianHead(b: byte, s: seq<byte>)
    ensures FromBigEndian([b] + s) == b * Pow256(|s|) + FromBigEndian(s)
  {
    var t := [b] + s;
    if s == [] {
      assert t[..|t| - 1] == [];
    } else {
      FromBigEndianHead(b, s[..|s| - 1]);
      assert t[..|t| - 1] == [b] + s[..|s| - 1];
      assert b * Pow256(|s|) == 256 * (b * Pow256(|s| - 1));
    }
  }
}
