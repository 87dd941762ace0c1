/** The bytes themselves: what each built message looks like on the wire. */
module WireLayout {
  import opened Bytes
  import opened Varint
  import opened Wire
  import opened Framing
  import opened Messages
  import opened Datagrams
  import opened CacheWire

  // ---- Numbers and frames ---------------------------------------------------------

  lemma OneByteVarint(v: u64)
    requires v < 64
    ensures EncodeVarint(v) == [v]
  {
    assert BigEndian(v, 1) == BigEndian(v / 256, 0) + [v];
  }

  lemma TwoBytes(v: nat)
    requires v < 0x1_0000
    ensures BigEndian(v, 2) == [v / 256, v % 256]
  {
    assert BigEndian(v / 256 / 256, 0) == [];
    assert BigEndian(v / 256, 1) == [v / 256];
  }

  lemma TwoByteVarint(v: u64)
    requires 64 <= v < 0x4000
    ensures EncodeVarint(v) == [0x40 + v / 256, v % 256]
  {
    TwoBytes(v);
  }

  /** A type byte, the content's length as two bytes with the higher one first, and the content. */
  lemma FrameBytes(m: Message)
    requires m.msgType < 64 && |m.content| < 0x1_0000
    ensures Frame(m) == [m.msgType, |m.content| / 256, |m.content| % 256] + m.content
  {
    hide EncodeVarint, BigEndian;
    OneByteVarint(m.msgType);
    TwoBytes(|m.content|);
  }

  /** Before a frame's last byte has arrived there is no message to read. */
  lemma FrameTruncated(m: Message, k: nat)
    requires m.msgType < TWO62 && |m.content| < 0x1_0000 && k < |Frame(m)|
    ensures !ReadFrame(Frame(m)[..k]).Ok?
  {
    hide ReadFrame, Frame;
    var f := Frame(m);
    var front, more := f[..k], f[k..];
    assert f == front + more == f + [];
    FrameRoundTrip(m, []);
    if ReadFrame(front).Ok? {
      ReadFrameMore(front, more);
    }
  }

  // ---- Datagrams ------------------------------------------------------------------

  /** With small ids the header is one byte each: type 0, alias, group, object, priority. */
  lemma HeaderBytes(d: Datagram)
    requires d.trackAlias < 64 && d.groupId < 64 && d.objectId < 64
    ensures Header(d) == [0, d.trackAlias, d.groupId, d.objectId, d.priority]
  {
    hide EncodeVarint;
    OneByteVarint(0);
    OneByteVarint(d.trackAlias);
    OneByteVarint(d.groupId);
    OneByteVarint(d.objectId);
  }

  /** A datagram of any type but 0 and 1 is dropped. */
  lemma OtherTypesDropped(msgType: u64, rest: seq<byte>)
    requires 1 < msgType < TWO62
    ensures ReadDatagram(EncodeVarint(msgType) + rest) == Bad
  {
    hide EncodeVarint, ReadVarint;
    VarintDecodes(msgType, rest);
  }

  // ---- The cache envelope -----------------------------------------------------------

  lemma BlockAt(e: seq<byte>, p: nat, s: Str, width: nat, rest: seq<byte>)
    requires p <= |e| && e[p..] == Block(s, width) + rest && |s| < Pow256(width)
    ensures p + width + |s| <= |e| && FromBigEndian(e[p..p + width]) == |s|
    ensures e[p + width..p + width + |s|] == s && e[p + width + |s|..] == rest
  {
    hide BigEndian, FromBigEndian;
    BigEndianRoundTrip(|s|, width);
    var t, n := e[p..], width + |s|;
    assert t[..width] == BigEndian(|s|, width) && t[width..n] == s && t[n..] == rest;
    assert e[p..p + width] == t[..width] && e[p + width..p + n] == t[width..n] && e[p + n..] == t[n..];
  }

  lemma HeadNumbers(flags: byte, opId: u64, nodeId: u32, tail: seq<byte>)
    ensures var e := Head(flags, opId, nodeId) + tail;
      && e[0] == 0xCA && e[1] == flags && e[14..] == tail
      && FromBigEndian(e[2..10]) == opId && FromBigEndian(e[10..14]) == nodeId
  {
    hide BigEndian, FromBigEndian;
    HeadRoundTrip(flags, opId, nodeId, tail);
  }

  /** The three length-prefixed fields. */
  function LengthPrefixed(op: CacheOp): seq<byte> {
    Block(op.topic, 1) + (Block(op.key, 2) + Block(op.value, 4))
  }

  predicate FieldsFit(op: CacheOp) {
    |op.topic| <= 0xFF && |op.key| <= 0xFFFF && |op.value| <= 0xFFFF_FFFF
  }

  lemma EnvelopeParts(op: CacheOp)
    requires FieldsFit(op)
    ensures Encode(op) == Head(if op.tombstone then 1 else 0, op.opId, op.nodeId) + LengthPrefixed(op)
    ensures |Encode(op)| == 21 + |op.topic| + |op.key| + |op.value|
  {
    hide Block, Head;
    EncodedSize(op);
  }

  lemma EnvelopeHead(op: CacheOp)
    requires FieldsFit(op)
    ensures var e := Encode(op);
      && |e| >= 21 && e[0] == 0xCA && e[1] == (if op.tombstone then 1 else 0) && e[14..] == LengthPrefixed(op)
      && FromBigEndian(e[2..10]) == op.opId && FromBigEndian(e[10..14]) == op.nodeId
  {
    hide BigEndian, FromBigEndian, LengthPrefixed, Head, Encode;
    EnvelopeParts(op);
    HeadNumbers(if op.tombstone then 1 else 0, op.opId, op.nodeId, LengthPrefixed(op));
  }

  lemma BlocksAt(e: seq<byte>, op: CacheOp)
    requires FieldsFit(op) && |e| >= 14 && e[14..] == LengthPrefixed(op)
    ensures var k := 15 + |op.topic|;
      var v := k + 2 + |op.key|;
      && |e| == v + 4 + |op.value|
      && FromBigEndian(e[14..15]) == |op.topic| && e[15..k] == op.topic
      && FromBigEndian(e[k..k + 2]) == |op.key| && e[k + 2..v] == op.key
      && FromBigEndian(e[v..v + 4]) == |op.value| && e[v + 4..] == op.value
  {
    hide BigEndian, FromBigEndian, Block;
    var value := Block(op.value, 4);
    var key := Block(op.key, 2) + value;
    var k := 15 + |op.topic|;
    var v := k + 2 + |op.key|;
    Pow256Values();
    BlockAt(e, 14, op.topic, 1, key);
    BlockAt(e, k, op.key, 2, value);
    assert value == value + [];
    BlockAt(e, v, op.value, 4, []);
    assert e[v + 4..] == e[v + 4..v + 4 + |op.value|];
  }

  /**
   * Version byte 0xCA, flag byte with the tombstone in bit 0, op id and node id, then topic, key and value behind
   * lengths of one, two and four bytes; all numbers have their highest byte first.
   */
  lemma EnvelopeBytes(op: CacheOp)
    requires FieldsFit(op)
    ensures var e, k := Encode(op), 15 + |op.topic|;
      var v := k + 2 + |op.key|;
      && |e| == v + 4 + |op.value|
      && e[0] == 0xCA && e[1] == (if op.tombstone then 1 else 0)
      && FromBigEndian(e[2..10]) == op.opId && FromBigEndian(e[10..14]) == op.nodeId
      && FromBigEndian(e[14..15]) == |op.topic| && e[15..k] == op.topic
      && FromBigEndian(e[k..k + 2]) == |op.key| && e[k + 2..v] == op.key
      && FromBigEndian(e[v..v + 4]) == |op.value| && e[v + 4..] == op.value
  {
    hide FromBigEndian, LengthPrefixed, Encode;
    EnvelopeHead(op);
    BlocksAt(Encode(op), op);
  }

  // ---- Control messages ---------------------------------------------------------------

  lemma StringBytes(s: Str)
    requires |s| < 64
    ensures EncodeString(s) == [|s|] + s
  {
    hide EncodeVarint;
    OneByteVarint(|s|);
  }

  lemma OnePartNamespace(part: Str)
    requires |part| < 64
    ensures Namespace([part]) == [1, |part|] + part
  {
    hide EncodeVarint, EncodeString;
    OneByteVarint(1);
    StringBytes(part);
    assert EncodeStrings([part][1..]) == [];
    assert EncodeStrings([part]) == EncodeString(part);
  }

  /** An even key's pair: the key's distance from the one before and a one-byte value. */
  lemma NumberPair(p: KvpParam, prev: u64)
    requires p.key % 2 == 0 && prev <= p.key < prev + 64 && p.intValue < 64
    ensures EncodeVarint(Delta(p.key, prev)) + EncodeValue(p) == [p.key - prev, p.intValue]
  {
    hide EncodeVarint;
    OneByteVarint(p.key - prev);
    OneByteVarint(p.intValue);
  }

  /** An odd key's pair: the distance, a length and the bytes. */
  lemma BytesPair(p: KvpParam, prev: u64)
    requires p.key % 2 == 1 && prev <= p.key < prev + 64 && |p.bytesValue| < 64
    ensures EncodeVarint(Delta(p.key, prev)) + EncodeValue(p) == [p.key - prev, |p.bytesValue|] + p.bytesValue
  {
    hide EncodeVarint, EncodeString;
    OneByteVarint(p.key - prev);
    StringBytes(p.bytesValue);
  }

  lemma PairsCons(p: KvpParam, ps: seq<KvpParam>, prev: u64)
    ensures EncodePairs([p] + ps, prev)
            == EncodeVarint(Delta(p.key, prev)) + EncodeValue(p) + EncodePairs(ps, p.key)
  {
    hide EncodeVarint, EncodeValue;
    assert ([p] + ps)[1..] == ps;
  }

  lemma NoPairs(prev: u64)
    ensures EncodePairs([], prev) == []
  {
  }

  /** The parameters of a plain SUBSCRIBE in the order of their keys. */
  function InKeyOrder(c: SubscribeConfig): seq<KvpParam> {
    AuthParams(c)
    + [KvpParam(0x10, c.forward, []), KvpParam(0x20, c.priority, []), KvpParam(0x21, 0, EncodeVarint(c.filterType)),
       KvpParam(0x22, c.groupOrder, [])]
  }

  lemma Reordered(a: seq<KvpParam>, b: seq<KvpParam>, c: seq<KvpParam>, d: seq<KvpParam>, auth: seq<KvpParam>)
    ensures multiset(auth + c + a + d + b) == multiset(a + b + c + d + auth)
  {
  }

  lemma KeysAscend(c: SubscribeConfig)
    ensures SortedByKey(InKeyOrder(c)) && DistinctKeys(InKeyOrder(c))
  {
    hide EncodeVarint;
    var auth, all := AuthParams(c), InKeyOrder(c);
    assert |auth| <= 1 && (auth != [] ==> all[0].key == 3);
    assert forall i :: |auth| <= i < |all| ==> all[i].key == [0x10, 0x20, 0x21, 0x22][i - |auth|];
  }

  lemma SameParams(c: SubscribeConfig)
    requires c.extraParams == []
    ensures multiset(InKeyOrder(c)) == multiset(SubscribeParams(c))
  {
    hide EncodeVarint, AuthParams;
    var b, auth := BuiltParams(c), AuthParams(c);
    Reordered([b[0]], [b[1]], [b[2]], [b[3]], auth);
    assert [b[0]] + [b[1]] + [b[2]] + [b[3]] + auth == SubscribeParams(c);
    assert auth + [b[2]] + [b[0]] + [b[3]] + [b[1]] == InKeyOrder(c);
  }

  lemma OrderByKey(c: SubscribeConfig, params: seq<byte>)
    requires c.extraParams == [] && EncodesParams(SubscribeParams(c), params)
    ensures params == EncodeSorted(InKeyOrder(c))
  {
    hide EncodeSorted, SortedByKey, DistinctKeys, InKeyOrder, SubscribeParams;
    var sorted :| IsKeySort(SubscribeParams(c), sorted) && params == EncodeSorted(sorted);
    SameParams(c);
    KeysAscend(c);
    SortIsUnique(InKeyOrder(c), sorted);
  }

  function PriorityBytes(priority: byte): seq<byte> {
    if priority < 64 then [priority] else [0x40, priority]
  }

  lemma ByteVarint(b: byte)
    ensures EncodeVarint(b) == PriorityBytes(b)
  {
    hide EncodeVarint;
    if b < 64 {
      OneByteVarint(b);
    } else {
      TwoByteVarint(b);
    }
  }

  lemma PriorityPair(p: KvpParam)
    requires p.key == 0x20 && p.intValue < 256
    ensures EncodeVarint(Delta(p.key, 0x10)) + EncodeValue(p) == [0x10] + PriorityBytes(p.intValue)
  {
    hide EncodeVarint, PriorityBytes;
    OneByteVarint(0x10);
    ByteVarint(p.intValue);
  }

  lemma FieldPairs(c: SubscribeConfig, prev: u64)
    requires c.forward < 64 && c.filterType < 64 && c.groupOrder < 64 && (prev == 0 || prev == 3)
    ensures EncodePairs(InKeyOrder(c)[|AuthParams(c)|..], prev)
            == [0x10 - prev, c.forward, 0x10] + PriorityBytes(c.priority) + [1, 1, c.filterType, 1, c.groupOrder]
  {
    hide EncodeVarint, EncodePairs, EncodeValue, PriorityBytes;
    var forward, priority := KvpParam(0x10, c.forward, []), KvpParam(0x20, c.priority, []);
    var filter, order := KvpParam(0x21, 0, EncodeVarint(c.filterType)), KvpParam(0x22, c.groupOrder, []);
    assert InKeyOrder(c)[|AuthParams(c)|..] == [forward] + ([priority] + ([filter] + ([order] + [])));
    OneByteVarint(c.filterType);
    NumberPair(forward, prev);
    PriorityPair(priority);
    BytesPair(filter, 0x20);
    NumberPair(order, 0x21);
    PairsCons(forward, [priority] + ([filter] + ([order] + [])), prev);
    PairsCons(priority, [filter] + ([order] + []), 0x10);
    PairsCons(filter, [order] + [], 0x20);
    PairsCons(order, [], 0x21);
    NoPairs(0x22);
  }

  /** The token, with key 3, precedes the four fields. */
  function TokenBytes(token: Str): seq<byte>
    requires |token| < 64
  {
    if token == [] then [4, 0x10] else [5, 3, |token|] + token + [0x0D]
  }

  lemma PlainParams(c: SubscribeConfig)
    requires c.forward < 64 && c.filterType < 64 && c.groupOrder < 64 && |c.authorization| < 64
    ensures EncodeSorted(InKeyOrder(c))
            == TokenBytes(c.authorization) + [c.forward, 0x10] + PriorityBytes(c.priority)
               + [1, 1, c.filterType, 1, c.groupOrder]
  {
    hide EncodeVarint, EncodePairs, EncodeValue, PriorityBytes;
    var all, n := InKeyOrder(c), |AuthParams(c)|;
    OneByteVarint(|all|);
    if c.authorization == [] {
      assert all == all[n..];
      FieldPairs(c, 0);
    } else {
      var token := KvpParam(KEY_AUTH_TOKEN, 0, c.authorization);
      assert all == [token] + all[n..];
      FieldPairs(c, 3);
      BytesPair(token, 0);
      PairsCons(token, all[n..], 0);
    }
  }

  lemma TokenSize(token: Str)
    requires |token| < 64
    ensures |TokenBytes(token)| <= 68
  {
  }

  /**
   * A SUBSCRIBE without host parameters, all its numbers but the priority below 64, byte for byte: id, namespace,
   * name, then the parameters as key distances and values.
   */
  lemma SubscribeBytes(c: SubscribeConfig, ns: Str, content: seq<byte>, bytes: seq<byte>)
    requires IsSubscribe(c, content, bytes) && c.extraParams == [] && c.trackNamespace == [ns]
    requires c.requestId < 64 && |ns| < 64 && |c.trackName| < 64 && |c.authorization| < 64
    requires c.forward < 64 && c.filterType < 64 && c.groupOrder < 64
    ensures content == [c.requestId, 1, |ns|] + ns + [|c.trackName|] + c.trackName
                       + TokenBytes(c.authorization) + [c.forward, 0x10] + PriorityBytes(c.priority)
                       + [1, 1, c.filterType, 1, c.groupOrder]
    ensures bytes == [0x03, |content| / 256, |content| % 256] + content
  {
    hide EncodeVarint, EncodeString, Namespace, EncodesParams, EncodeSorted, SubscribeParams, TokenBytes, Frame,
      InKeyOrder;
    var params :| EncodesParams(SubscribeParams(c), params) && content == SubscribeHead(c) + params;
    OrderByKey(c, params);
    PlainParams(c);
    OneByteVarint(c.requestId);
    OnePartNamespace(ns);
    StringBytes(c.trackName);
    TokenSize(c.authorization);
    FrameBytes(Message(SUBSCRIBE, content));
  }

  lemma OkInKeyOrder(c: SubscribeOk, params: seq<byte>)
    requires EncodesParams(OkParams(c), params)
    ensures params == EncodeSorted(OkParams(c))
  {
    hide EncodeSorted, OkParams;
    var sorted :| IsKeySort(OkParams(c), sorted) && params == EncodeSorted(sorted);
    OkParamsSorted(c);
    SortIsUnique(OkParams(c), sorted);
  }

  lemma OkPairs(c: SubscribeOk)
    requires 0 < c.expiresMs < 64 && 0 < c.groupOrder < 64 && c.contentExists
    requires c.largestGroupId < 64 && c.largestObjectId < 64
    ensures EncodeSorted(OkParams(c))
            == [3, 0x08, c.expiresMs, 1, 2, c.largestGroupId, c.largestObjectId, 0x19, c.groupOrder]
  {
    hide EncodeVarint, EncodePairs, EncodeValue;
    var expires := KvpParam(0x08, c.expiresMs, []);
    var location := KvpParam(0x09, 0, Location(c));
    var order := KvpParam(0x22, c.groupOrder, []);
    OneByteVarint(c.largestGroupId);
    OneByteVarint(c.largestObjectId);
    assert Location(c) == [c.largestGroupId, c.largestObjectId];
    assert OkParams(c) == [expires] + ([location] + ([order] + []));
    OneByteVarint(3);
    NumberPair(expires, 0);
    BytesPair(location, 0x08);
    NumberPair(order, 0x09);
    PairsCons(expires, [location] + ([order] + []), 0);
    PairsCons(location, [order] + [], 0x08);
    PairsCons(order, [], 0x09);
    NoPairs(0x22);
  }

  /** A SUBSCRIBE_OK with every optional parameter, all its numbers below 64, byte for byte. */
  lemma SubscribeOkBytes(c: SubscribeOk, content: seq<byte>, bytes: seq<byte>)
    requires IsSubscribeOk(c, content, bytes) && c.requestId < 64 && c.trackAlias < 64
    requires 0 < c.expiresMs < 64 && 0 < c.groupOrder < 64 && c.contentExists
    requires c.largestGroupId < 64 && c.largestObjectId < 64
    ensures bytes == [0x04, 0, 11, c.requestId, c.trackAlias, 3, 0x08, c.expiresMs, 1, 2, c.largestGroupId,
                      c.largestObjectId, 0x19, c.groupOrder]
  {
    hide EncodeVarint, EncodesParams, EncodeSorted, OkParams, Frame;
    var params :| EncodesParams(OkParams(c), params) && content == OkHead(c) + params;
    OkInKeyOrder(c, params);
    OkPairs(c);
    OneByteVarint(c.requestId);
    OneByteVarint(c.trackAlias);
    FrameBytes(Message(SUBSCRIBE_OK, content));
  }

  /** An ANNOUNCE byte for byte: id, namespace, no parameters. */
  lemma AnnounceBytes(requestId: u64, ns: Str)
    requires requestId < 64 && |ns| < 64
    ensures Frame(Message(ANNOUNCE, AnnounceContent(requestId, [ns])))
            == [0x06, 0, 4 + |ns|, requestId, 1, |ns|] + ns + [0]
  {
    hide EncodeVarint, Namespace, Frame;
    OneByteVarint(requestId);
    OneByteVarint(0);
    OnePartNamespace(ns);
    FrameBytes(Message(ANNOUNCE, AnnounceContent(requestId, [ns])));
  }
}
