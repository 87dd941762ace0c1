/** Variable-length integers of section 16 of RFC 9000, and the result type every parser shares. */
module Varint {
  import opened Bytes
  import opened Arith

  /**
   * What a parser makes of the bytes still unread: a value and what follows it, or failure. Overlong marks a
   * length field that the source's int32 offset arithmetic cannot hold; nothing is claimed about that case.
   */
  datatype Parse<+T> = Ok(value: T, rest: seq<byte>) | Bad | Overlong {
    predicate IsFailure() {
      !Ok?
    }

    function PropagateFailure<U>(): Parse<U>
      requires IsFailure()
    {
      if Bad? then Bad else Overlong
    }

    function Extract(): (T, seq<byte>)
      requires !IsFailure()
    {
      (value, rest)
    }
  }

  function VarintSize(v: u64): (n: nat)
    ensures n == 1 || n == 2 || n == 4 || n == 8
  {
    if v <= 63 then 1
    else if v <= 16383 then 2
    else if v <= 1073741823 then 4
    else 8
  }

  /** The two high bits of the first byte carry the length: 0, 1, 2, 3 for 1, 2, 4, 8 bytes. */
  function Prefix(size: nat): nat {
    if size == 1 then 0 else if size == 2 then 1 else if size == 4 then 2 else 3
  }

  function SizeOf(first: byte): (n: nat)
    ensures n == 1 || n == 2 || n == 4 || n == 8
  {
    var prefix := first / 64;
    if prefix == 0 then 1 else if prefix == 1 then 2 else if prefix == 2 then 4 else 8
  }

  /** Big-endian bytes with the two high bits replaced by the length prefix. */
  function EncodeVarint(v: u64): (s: seq<byte>)
    ensures |s| == VarintSize(v)
  {
    var b := BigEndian(v, VarintSize(v));
    [64 * Prefix(VarintSize(v)) + b[0] % 64] + b[1..]
  }

  lemma {:induction false} PowMonotone(a: nat, b: nat)
    requires a <= b
    ensures Pow256(a) <= Pow256(b)
    decreases b - a
  {
    if a < b {
      PowMonotone(a + 1, b);
    }
  }

  lemma ValueFits(s: seq<byte>)
    requires 1 <= |s| <= 8
    ensures FromBigEndian([s[0] % 64] + s[1..]) < 64 * Pow256(|s| - 1) <= TWO62
  {
    var rest := s[1..];
    FromBigEndianHead(s[0] % 64, rest);
    BigEndianInverse(rest);
    PowMonotone(|rest|, 7);
    Pow256Values();
    MulMonotone(s[0] % 64, 63, Pow256(|rest|));
  }

  function VarintValue(s: seq<byte>): u64
    requires 1 <= |s| <= 8
  {
    ValueFits(s);
    FromBigEndian([s[0] % 64] + s[1..])
  }

  function ReadVarint(s: seq<byte>): Parse<u64> {
    if s == [] || |s| < SizeOf(s[0]) then Bad
    else Ok(VarintValue(s[..SizeOf(s[0])]), s[SizeOf(s[0])..])
  }

  lemma Regroup(q: nat, low: nat, p: nat)
    ensures (64 * q + low) * p == q * (64 * p) + low * p
  {
  }

  lemma MaskedSum(b: nat, p: nat, r: nat)
    requires r < p
    ensures (b * p + r) % (64 * p) == (b % 64) * p + r
  {
    var q, low, c := b / 64, b % 64, 64 * p;
    MulMonotone(low, 63, p);
    Regroup(q, low, p);
    DivUnique(b * p + r, c, q, low * p + r);
  }

  /** Masking the top two bits of a big-endian number is reducing it modulo 64 * 256^(n-1). */
  lemma MaskedValue(b: seq<byte>)
    requires b != []
    ensures FromBigEndian([b[0] % 64] + b[1..]) == FromBigEndian(b) % (64 * Pow256(|b| - 1))
  {
    hide FromBigEndian, Pow256;
    var high, rest := b[0], b[1..];
    var p, r := Pow256(|rest|), FromBigEndian(rest);
    assert FromBigEndian(b) == high * p + r by {
      assert b == [high] + rest;
      FromBigEndianHead(high, rest);
    }
    FromBigEndianHead(high % 64, rest);
    assert r < p by {
      BigEndianInverse(rest);
    }
    MaskedSum(high, p, r);
  }

  lemma SizeHolds(v: u64)
    ensures v < Pow256(VarintSize(v))
    ensures v % (64 * Pow256(VarintSize(v) - 1)) == v % TWO62
  {
    Pow256Values();
    assert Pow256(0) == 1;
  }

  /** Every 64-bit value survives up to its top two bits. */
  lemma VarintDecodes(v: u64, rest: seq<byte>)
    ensures ReadVarint(EncodeVarint(v) + rest) == Ok(v % TWO62, rest)
  {
    var n, s := VarintSize(v), EncodeVarint(v) + rest;
    var b := BigEndian(v, n);
    SizeHolds(v);
    BigEndianRoundTrip(v, n);
    MaskedValue(b);
    assert s[0] == EncodeVarint(v)[0] && s[0] % 64 == b[0] % 64 && SizeOf(s[0]) == n;
    assert s[..n] == EncodeVarint(v) && s[n..] == rest;
    assert EncodeVarint(v)[1..] == b[1..];
  }

  /** The round trip holds exactly below 2^62, the range section 16 of RFC 9000 gives. */
  lemma VarintRoundTrip(v: u64, rest: seq<byte>)
    ensures ReadVarint(EncodeVarint(v) + rest) == Ok(v, rest) <==> v < TWO62
  {
    hide EncodeVarint, ReadVarint;
    VarintDecodes(v, rest);
  }

  /** No other encoding of the value is shorter. */
  lemma VarintMinimal(v: u64, s: seq<byte>, rest: seq<byte>)
    requires ReadVarint(s + rest) == Ok(v, rest)
    ensures |EncodeVarint(v)| <= |s|
  {
    var t := s + rest;
    var n := SizeOf(t[0]);
    assert |t| - n == |rest|;
    ValueFits(t[..n]);
    Pow256Values();
    assert Pow256(0) == 1;
  }

  /** A decoder never mistakes one encoding for the start of another. */
  lemma VarintPrefixFree(a: u64, b: u64)
    requires a < TWO62 && b < TWO62 && EncodeVarint(a) <= EncodeVarint(b)
    ensures a == b
  {
    hide EncodeVarint, ReadVarint;
    var ea, eb := EncodeVarint(a), EncodeVarint(b);
    var tail := eb[|ea|..];
    VarintDecodes(a, tail);
    VarintDecodes(b, []);
    assert eb + [] == eb == ea + tail;
  }

  /** Reading depends only on the bytes read: more input behind them changes nothing. */
  lemma ReadVarintMore(s: seq<byte>, more: seq<byte>)
    requires ReadVarint(s).Ok?
    ensures ReadVarint(s + more) == Ok(ReadVarint(s).value, ReadVarint(s).rest + more)
  {
    var n := SizeOf(s[0]);
    assert (s + more)[..n] == s[..n];
    assert (s + more)[n..] == s[n..] + more;
  }

  /** The two high bits say 1, 2, 4 or 8 bytes, the rest is the value with its highest byte first. */
  lemma VarintFormat(v: u64)
    requires v < TWO62
    ensures var e := EncodeVarint(v);
      && |e| == (if v < 0x40 then 1 else if v < 0x4000 then 2 else if v < 0x4000_0000 then 4 else 8)
      && e[0] / 64 == (if |e| == 1 then 0 else if |e| == 2 then 1 else if |e| == 4 then 2 else 3)
      && FromBigEndian([e[0] % 64] + e[1..]) == v
  {
    hide BigEndian, FromBigEndian;
    var e := EncodeVarint(v);
    assert e + [] == e;
    VarintDecodes(v, []);
    assert e[..|e|] == e;
  }

  /** A varint cut short is not read. */
  lemma VarintTruncated(v: u64, k: nat)
    requires k < |EncodeVarint(v)|
    ensures ReadVarint(EncodeVarint(v)[..k]) == Bad
  {
    hide BigEndian;
    var e := EncodeVarint(v);
    assert k > 0 ==> e[..k][0] == e[0] && SizeOf(e[0]) == VarintSize(v);
  }
}
