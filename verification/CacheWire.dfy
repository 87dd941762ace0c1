/** The binary cache envelope. */
module CacheWire {
  import opened Bytes

  const VERSION: byte := 0xCA
  const TOMBSTONE: byte := 0x01
  const MIN_LEN := 21

  datatype CacheOp = CacheOp(topic: Str, key: Str, value: Str, opId: u64, nodeId: u32, tombstone: bool)

  /** Over-long fields are cut without notice. */
  function Cut(s: Str, most: nat): (r: Str)
    ensures r <= s && |r| == if |s| > most then most else |s|
  {
    if |s| > most then s[..most] else s
  }

  function Truncated(op: CacheOp): CacheOp {
    op.(topic := Cut(op.topic, 0xFF), key := Cut(op.key, 0xFFFF), value := Cut(op.value, 0xFFFF_FFFF))
  }

  /** A length of `width` bytes, then the bytes. */
  function Block(s: Str, width: nat): seq<byte> {
    BigEndian(|s|, width) + s
  }

  function Head(flags: byte, opId: u64, nodeId: u32): (h: seq<byte>)
    ensures |h| == 14
  {
    [VERSION, flags] + BigEndian(opId, 8) + BigEndian(nodeId, 4)
  }

  function Encode(op: CacheOp): seq<byte> {
    var t := Truncated(op);
    Head(if op.tombstone then TOMBSTONE else 0, op.opId, op.nodeId)
    + Block(t.topic, 1) + Block(t.key, 2) + Block(t.value, 4)
  }

  predicate IsEnvelope(data: seq<byte>) {
    |data| > 0 && data[0] == VERSION
  }

  function ReadBlock(s: seq<byte>, width: nat): Option<(Str, seq<byte>)> {
    if width > |s| then None
    else if FromBigEndian(s[..width]) > |s| - width then None
    else
      var len := FromBigEndian(s[..width]);
      Some((s[width..][..len], s[width..][len..]))
  }

  function ReadU64(s: seq<byte>): (v: u64)
    requires |s| == 8
  {
    BigEndianInverse(s);
    Pow256Values();
    FromBigEndian(s)
  }

  function ReadU32(s: seq<byte>): (v: u32)
    requires |s| == 4
  {
    BigEndianInverse(s);
    Pow256Values();
    FromBigEndian(s)
  }

  function ReadBlocks(flags: byte, opId: u64, nodeId: u32, s: seq<byte>): Option<(CacheOp, seq<byte>)> {
    match ReadBlock(s, 1)
    case None => None
    case Some((topic, t)) =>
      match ReadBlock(t, 2)
      case None => None
      case Some((key, u)) =>
        match ReadBlock(u, 4)
        case None => None
        case Some((value, rest)) => Some((CacheOp(topic, key, value, opId, nodeId, flags % 2 == 1), rest))
  }

  /** The op, and what follows the envelope. */
  function DecodeRest(data: seq<byte>): Option<(CacheOp, seq<byte>)> {
    if |data| < MIN_LEN || data[0] != VERSION then None
    else ReadBlocks(data[1], ReadU64(data[2..10]), ReadU32(data[10..14]), data[14..])
  }

  /** decode_cache_op: trailing bytes are ignored. */
  function Decode(data: seq<byte>): Option<CacheOp> {
    match DecodeRest(data)
    case None => None
    case Some((op, rest)) => Some(op)
  }

  // ---- The code over its buffer -------------------------------------------------------

  method Put(buf: array<byte>, p: nat, bytes: seq<byte>) returns (next: nat)
    requires p + |bytes| <= buf.Length
    modifies buf
    ensures next == p + |bytes| && buf[..next] == old(buf[..p]) + bytes
  {
    forall i | 0 <= i < |bytes| {
      buf[p + i] := bytes[i];
    }
    next := p + |bytes|;
    assert buf[..next] == old(buf[..p]) + bytes;
  }

  /** One length field and its bytes. */
  method PutBlock(buf: array<byte>, p: nat, s: Str, width: nat) returns (next: nat)
    requires p + width + |s| <= buf.Length
    modifies buf
    ensures next == p + width + |s| && buf[..next] == old(buf[..p]) + Block(s, width)
  {
    next := Put(buf, p, BigEndian(|s|, width));
    if |s| > 0 {
      next := Put(buf, next, s);
    }
  }

  method EncodeCacheOp(op: CacheOp) returns (buf: array<byte>)
    ensures fresh(buf) && buf[..] == Encode(op)
  {
    hide BigEndian, Block;
    var topic, key, value := Cut(op.topic, 0xFF), Cut(op.key, 0xFFFF), Cut(op.value, 0xFFFF_FFFF);
    buf := new byte[MIN_LEN + |topic| + |key| + |value|];
    var p := Put(buf, 0, [VERSION, if op.tombstone then TOMBSTONE else 0]);
    p := Put(buf, p, BigEndian(op.opId, 8));
    p := Put(buf, p, BigEndian(op.nodeId, 4));
    assert buf[..p] == Head(if op.tombstone then TOMBSTONE else 0, op.opId, op.nodeId);
    p := PutBlock(buf, p, topic, 1);
    p := PutBlock(buf, p, key, 2);
    p := PutBlock(buf, p, value, 4);
    assert buf[..] == buf[..p];
  }

  method DecodeCacheOp(data: seq<byte>) returns (r: Option<CacheOp>)
    ensures r == Decode(data)
  {
    hide FromBigEndian;
    if |data| < MIN_LEN || data[0] != VERSION {
      return None;
    }
    var flags, opId, nodeId := data[1], ReadU64(data[2..10]), ReadU32(data[10..14]);
    var topic := ReadBlock(data[14..], 1);
    if topic == None {
      return None;
    }
    var key := ReadBlock(topic.value.1, 2);
    if key == None {
      return None;
    }
    var value := ReadBlock(key.value.1, 4);
    if value == None {
      return None;
    }
    r := Some(CacheOp(topic.value.0, key.value.0, value.value.0, opId, nodeId, flags % 2 == 1));
  }

  // ---- Round trip -----------------------------------------------------------------

  lemma BlockRoundTrip(s: Str, width: nat, rest: seq<byte>)
    requires |s| < Pow256(width)
    ensures ReadBlock(Block(s, width) + rest, width) == Some((s, rest))
  {
    hide BigEndian, FromBigEndian;
    BigEndianRoundTrip(|s|, width);
    var all := Block(s, width) + rest;
    assert all[..width] == BigEndian(|s|, width) && all[width..] == s + rest;
    assert (s + rest)[..|s|] == s && (s + rest)[|s|..] == rest;
  }

  lemma HeadRoundTrip(flags: byte, opId: u64, nodeId: u32, s: seq<byte>)
    ensures var data := Head(flags, opId, nodeId) + s;
      && data[0] == VERSION && data[1] == flags && data[14..] == s
      && ReadU64(data[2..10]) == opId && ReadU32(data[10..14]) == nodeId
  {
    hide BigEndian, FromBigEndian;
    var data := Head(flags, opId, nodeId) + s;
    Pow256Values();
    BigEndianRoundTrip(opId, 8);
    BigEndianRoundTrip(nodeId, 4);
    assert data[2..10] == BigEndian(opId, 8) && data[10..14] == BigEndian(nodeId, 4);
  }

  lemma EncodedSize(op: CacheOp)
    ensures |Encode(op)| == MIN_LEN + |Truncated(op).topic| + |Truncated(op).key| + |Truncated(op).value|
  {
    hide BigEndian;
  }

  lemma EncodeDecodes(op: CacheOp, rest: seq<byte>)
    ensures DecodeRest(Encode(op) + rest) == Some((Truncated(op), rest))
  {
    hide BigEndian, FromBigEndian, Head, Block, ReadBlock, ReadU64, ReadU32;
    var t, flags := Truncated(op), if op.tombstone then TOMBSTONE else 0;
    var u := Block(t.value, 4) + rest;
    var w := Block(t.key, 2) + u;
    var s := Block(t.topic, 1) + w;
    assert Encode(op) + rest == Head(flags, op.opId, op.nodeId) + s;
    HeadRoundTrip(flags, op.opId, op.nodeId, s);
    Pow256Values();
    BlockRoundTrip(t.topic, 1, w);
    BlockRoundTrip(t.key, 2, u);
    BlockRoundTrip(t.value, 4, rest);
    EncodedSize(op);
  }

  /** An envelope decodes to its op, cut to the wire's limits, whatever follows it. */
  lemma CacheRoundTrip(op: CacheOp, rest: seq<byte>)
    ensures Decode(Encode(op) + rest) == Some(Truncated(op))
  {
    hide Encode, DecodeRest;
    EncodeDecodes(op, rest);
  }

  // ---- Truncated input ---------------------------------------------------------------

  lemma ReadBlockMore(s: seq<byte>, width: nat, more: seq<byte>)
    requires ReadBlock(s, width).Some?
    ensures ReadBlock(s + more, width)
            == Some((ReadBlock(s, width).value.0, ReadBlock(s, width).value.1 + more))
  {
    hide FromBigEndian;
    var len, t := FromBigEndian(s[..width]), s[width..];
    assert (s + more)[..width] == s[..width] && (s + more)[width..] == t + more;
    assert (t + more)[..len] == t[..len] && (t + more)[len..] == t[len..] + more;
  }

  lemma DecodeMore(data: seq<byte>, more: seq<byte>)
    requires DecodeRest(data).Some?
    ensures DecodeRest(data + more) == Some((DecodeRest(data).value.0, DecodeRest(data).value.1 + more))
  {
    hide ReadBlock, ReadU64, ReadU32;
    var s := data[14..];
    assert (data + more)[14..] == s + more;
    assert (data + more)[2..10] == data[2..10] && (data + more)[10..14] == data[10..14];
    var topic := ReadBlock(s, 1).value;
    ReadBlockMore(s, 1, more);
    var key := ReadBlock(topic.1, 2).value;
    ReadBlockMore(topic.1, 2, more);
    ReadBlockMore(key.1, 4, more);
  }

  /** Every strict prefix of an envelope is rejected. */
  lemma StrictPrefixRejected(op: CacheOp, k: nat)
    requires k < |Encode(op)|
    ensures Decode(Encode(op)[..k]) == None
  {
    hide Encode, DecodeRest;
    var e := Encode(op);
    var data, more := e[..k], e[k..];
    EncodeDecodes(op, []);
    assert data + more == e == e + [];
    if DecodeRest(data).Some? {
      DecodeMore(data, more);
    }
  }

  // ---- Re-encoding ------------------------------------------------------------------

  lemma ReadBlockInverse(s: seq<byte>, width: nat)
    requires ReadBlock(s, width).Some?
    ensures var r := ReadBlock(s, width).value;
      s == Block(r.0, width) + r.1 && |r.0| < Pow256(width)
  {
    hide BigEndian, FromBigEndian;
    BigEndianInverse(s[..width]);
    assert s == s[..width] + s[width..];
  }

  lemma HeadInverse(data: seq<byte>)
    requires |data| >= 14 && data[0] == VERSION
    ensures data == Head(data[1], ReadU64(data[2..10]), ReadU32(data[10..14])) + data[14..]
  {
    hide BigEndian, FromBigEndian;
    BigEndianInverse(data[2..10]);
    BigEndianInverse(data[10..14]);
  }

  /**
   * Whatever is accepted is, up to the seven reserved flag bits, the encoding of the op it decodes to, possibly
   * with bytes behind it.
   */
  lemma {:induction false} Reencodes(data: seq<byte>) returns (op: CacheOp, rest: seq<byte>)
    requires Decode(data).Some?
    ensures Decode(data) == Some(op) && Truncated(op) == op
    ensures data[1 := data[1] % 2] == Encode(op) + rest
  {
    hide BigEndian, FromBigEndian, Block, ReadBlock, ReadU64, ReadU32, Head;
    var s := data[14..];
    var topic := ReadBlock(s, 1).value;
    var key := ReadBlock(topic.1, 2).value;
    var value := ReadBlock(key.1, 4).value;
    ReadBlockInverse(s, 1);
    ReadBlockInverse(topic.1, 2);
    ReadBlockInverse(key.1, 4);
    Pow256Values();
    op, rest := Decode(data).value, value.1;
    var masked := data[1 := data[1] % 2];
    HeadInverse(masked);
    assert masked[2..10] == data[2..10] && masked[10..14] == data[10..14] && masked[14..] == s;
    assert s == Block(topic.0, 1) + Block(key.0, 2) + Block(value.0, 4) + rest;
  }
}
