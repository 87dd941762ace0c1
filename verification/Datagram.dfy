/** Object datagrams: [type][alias][group][object][priority byte], optional extensions, payload. */
module Datagrams {
  import opened Bytes
  import opened Varint
  import opened Wire

  const PLAIN: u64 := 0x00
  const WITH_EXTENSIONS: u64 := 0x01

  /** The buffer the send path sets aside for a header. */
  const HEADER_ROOM := 34

  datatype Datagram = Datagram(trackAlias: u64, groupId: u64, objectId: u64, priority: byte, payload: seq<byte>)

  function Ids(d: Datagram): seq<byte> {
    EncodeVarint(d.trackAlias) + EncodeVarint(d.groupId) + EncodeVarint(d.objectId) + [d.priority]
  }

  function Header(d: Datagram): (h: seq<byte>)
    ensures |h| <= 33
  {
    EncodeVarint(PLAIN) + Ids(d)
  }

  predicate InRange(d: Datagram) {
    d.trackAlias < TWO62 && d.groupId < TWO62 && d.objectId < TWO62
  }

  /** An empty payload is not appended, which comes to the same thing. */
  method BuildObjectDatagram(d: Datagram) returns (result: seq<byte>)
    ensures result == Header(d) + d.payload
  {
    result := EncodeVarint(PLAIN);
    result := result + EncodeVarint(d.trackAlias);
    result := result + EncodeVarint(d.groupId);
    result := result + EncodeVarint(d.objectId);
    result := result + [d.priority];
    if |d.payload| > 0 {
      result := result + d.payload;
    }
  }

  /** `bytes` at the front of the buffer, everything behind them as it was. */
  ghost predicate Holds(buffer: seq<byte>, before: seq<byte>, bytes: seq<byte>) {
    |bytes| <= |before| && buffer == bytes + before[|bytes|..]
  }

  lemma HoldsMore(buffer: seq<byte>, buffer': seq<byte>, before: seq<byte>, bytes: seq<byte>, more: seq<byte>)
    requires Holds(buffer, before, bytes) && |bytes| + |more| <= |before|
    requires buffer' == buffer[..|bytes|] + more + buffer[|bytes| + |more|..]
    ensures Holds(buffer', before, bytes + more)
  {
    assert buffer[..|bytes|] == bytes;
    assert buffer[|bytes| + |more|..] == before[|bytes| + |more|..];
  }

  /** encode_varint into a caller's buffer, behind the bytes already there. */
  method WriteVarint(v: u64, buffer: array<byte>, at: nat, ghost before: seq<byte>, ghost bytes: seq<byte>)
      returns (next: nat)
    requires Holds(buffer[..], before, bytes) && at == |bytes| && at + 8 <= buffer.Length
    modifies buffer
    ensures next == at + VarintSize(v) && Holds(buffer[..], before, bytes + EncodeVarint(v))
  {
    hide EncodeVarint;
    var e := EncodeVarint(v);
    ghost var was := buffer[..];
    forall i | 0 <= i < |e| {
      buffer[at + i] := e[i];
    }
    assert buffer[..] == was[..at] + e + was[at + |e|..];
    HoldsMore(was, buffer[..], before, bytes, e);
    next := at + |e|;
  }

  function Varints(d: Datagram): seq<byte> {
    EncodeVarint(PLAIN) + EncodeVarint(d.trackAlias) + EncodeVarint(d.groupId) + EncodeVarint(d.objectId)
  }

  lemma HeaderParts(d: Datagram)
    ensures Header(d) == Varints(d) + [d.priority] && |Varints(d)| <= 32
  {
    hide EncodeVarint;
  }

  method WriteVarints(d: Datagram, buffer: array<byte>) returns (len: nat)
    requires buffer.Length >= HEADER_ROOM
    modifies buffer
    ensures len == |Varints(d)| && Holds(buffer[..], old(buffer[..]), Varints(d))
  {
    hide EncodeVarint, VarintSize;
    ghost var before := buffer[..];
    ghost var e0 := EncodeVarint(PLAIN);
    ghost var e1 := e0 + EncodeVarint(d.trackAlias);
    assert [] + e0 == e0 && before == [] + before[0..];
    len := WriteVarint(PLAIN, buffer, 0, before, []);
    len := WriteVarint(d.trackAlias, buffer, len, before, e0);
    len := WriteVarint(d.groupId, buffer, len, before, e1);
    len := WriteVarint(d.objectId, buffer, len, before, e1 + EncodeVarint(d.groupId));
  }

  lemma OneByte(was: seq<byte>, at: nat, b: byte)
    requires at < |was|
    ensures was[at := b] == was[..at] + [b] + was[at + 1..]
  {
  }

  /** The header alone, into a buffer of at least 34 bytes; the rest of the buffer is untouched. */
  method BuildObjectDatagramHeader(d: Datagram, buffer: array<byte>) returns (len: nat)
    requires buffer.Length >= HEADER_ROOM
    modifies buffer
    ensures len == |Header(d)| && Holds(buffer[..], old(buffer[..]), Header(d))
  {
    hide Varints, Header;
    ghost var before := buffer[..];
    var offset := WriteVarints(d, buffer);
    HeaderParts(d);
    ghost var was := buffer[..];
    buffer[offset] := d.priority;
    assert buffer[..] == was[offset := d.priority];
    OneByte(was, offset, d.priority);
    HoldsMore(was, buffer[..], before, Varints(d), [d.priority]);
    len := offset + 1;
  }

  // ---- Parsing ------------------------------------------------------------------

  /** Past `n` extensions, each a key varint and a length-prefixed value. */
  function SkipExtensions(n: nat, s: seq<byte>): Parse<()> {
    if n == 0 then Ok((), s)
    else
      var (key, t) :- ReadVarint(s);
      var (value, u) :- ReadString(t);
      SkipExtensions(n - 1, u)
  }

  function SkipAll(msgType: u64, s: seq<byte>): Parse<()> {
    if msgType == PLAIN then Ok((), s)
    else
      var (count, t) :- ReadVarint(s);
      SkipExtensions(count, t)
  }

  function ReadByte(s: seq<byte>): Parse<byte> {
    if s == [] then Bad else Ok(s[0], s[1..])
  }

  function ReadIds(msgType: u64, s: seq<byte>): Parse<Datagram> {
    var (alias, t) :- ReadVarint(s);
    var (group, u) :- ReadVarint(t);
    var (obj, w) :- ReadVarint(u);
    var (priority, x) :- ReadByte(w);
    var (none, payload) :- SkipAll(msgType, x);
    Ok(Datagram(alias, group, obj, priority, payload), [])
  }

  function ReadDatagram(s: seq<byte>): Parse<Datagram> {
    var (msgType, t) :- ReadVarint(s);
    if msgType != PLAIN && msgType != WITH_EXTENSIONS then Bad else ReadIds(msgType, t)
  }

  method ParseObjectDatagram(data: seq<byte>) returns (r: Parse<Datagram>)
    ensures r == ReadDatagram(data)
  {
    hide ReadVarint, ReadString;
    var head :- ReadVarint(data);
    if head.0 != PLAIN && head.0 != WITH_EXTENSIONS {
      return Bad;
    }
    var alias :- ReadVarint(head.1);
    var group :- ReadVarint(alias.1);
    var obj :- ReadVarint(group.1);
    var priority :- ReadByte(obj.1);
    var unread := priority.1;
    if head.0 == WITH_EXTENSIONS {
      var count :- ReadVarint(unread);
      unread := count.1;
      var i := 0;
      while i < count.0
        invariant i <= count.0
        invariant SkipExtensions(count.0 - i, unread) == SkipExtensions(count.0, count.1)
      {
        var key :- ReadVarint(unread);
        var value :- ReadString(key.1);
        unread, i := value.1, i + 1;
      }
    }
    r := Ok(Datagram(alias.0, group.0, obj.0, priority.0, unread), []);
  }

  // ---- Round trips --------------------------------------------------------------

  datatype Extension = Extension(key: u64, value: seq<byte>)

  function EncodeExtensions(es: seq<Extension>): seq<byte> {
    if es == [] then []
    else EncodeVarint(es[0].key) + EncodeString(es[0].value) + EncodeExtensions(es[1..])
  }

  /** The same object sent with an extension list between header and payload. */
  function Extended(d: Datagram, es: seq<Extension>): seq<byte> {
    EncodeVarint(WITH_EXTENSIONS) + Ids(d) + EncodeVarint(Size(|es|)) + EncodeExtensions(es) + d.payload
  }

  lemma {:induction false} SkipsExtensions(es: seq<Extension>, rest: seq<byte>)
    requires forall e :: e in es ==> |e.value| <= MAX_LEN
    ensures SkipExtensions(|es|, EncodeExtensions(es) + rest) == Ok((), rest)
  {
    hide EncodeVarint, ReadVarint, EncodeString, ReadString;
    if es == [] {
      assert EncodeExtensions(es) + rest == rest;
    } else {
      var more := EncodeExtensions(es[1..]) + rest;
      var t := EncodeString(es[0].value) + more;
      assert EncodeExtensions(es) + rest == EncodeVarint(es[0].key) + t;
      VarintDecodes(es[0].key, t);
      StringRoundTrip(es[0].value, more);
      SkipsExtensions(es[1..], rest);
    }
  }

  lemma IdsRoundTrip(d: Datagram, msgType: u64, rest: seq<byte>)
    requires InRange(d) && SkipAll(msgType, rest) == Ok((), d.payload)
    ensures ReadIds(msgType, Ids(d) + rest) == Ok(d, [])
  {
    hide EncodeVarint, ReadVarint, SkipAll;
    var w := [d.priority] + rest;
    var u := EncodeVarint(d.objectId) + w;
    var t := EncodeVarint(d.groupId) + u;
    assert Ids(d) + rest == EncodeVarint(d.trackAlias) + t;
    VarintDecodes(d.trackAlias, t);
    VarintDecodes(d.groupId, u);
    VarintDecodes(d.objectId, w);
    assert w[1..] == rest;
  }

  /** What is sent is what is parsed, fields and payload. */
  lemma {:induction false} DatagramRoundTrip(d: Datagram)
    requires InRange(d)
    ensures ReadDatagram(Header(d) + d.payload) == Ok(d, [])
  {
    hide EncodeVarint, ReadVarint, Ids, ReadIds;
    var t := Ids(d) + d.payload;
    assert Header(d) + d.payload == EncodeVarint(PLAIN) + t;
    VarintDecodes(PLAIN, t);
    IdsRoundTrip(d, PLAIN, d.payload);
  }

  /** Extensions are skipped: whatever they are, the object parses as if they were not there. */
  lemma {:induction false} ExtensionsChangeNothing(d: Datagram, es: seq<Extension>)
    requires InRange(d) && |es| < TWO62 && forall e :: e in es ==> |e.value| <= MAX_LEN
    ensures ReadDatagram(Extended(d, es)) == ReadDatagram(Header(d) + d.payload)
  {
    hide EncodeVarint, ReadVarint, Ids, ReadIds, SkipExtensions, EncodeExtensions;
    DatagramRoundTrip(d);
    var s := EncodeExtensions(es) + d.payload;
    var rest := EncodeVarint(|es|) + s;
    var t := Ids(d) + rest;
    assert Extended(d, es) == EncodeVarint(WITH_EXTENSIONS) + t;
    VarintDecodes(WITH_EXTENSIONS, t);
    VarintDecodes(|es|, s);
    SkipsExtensions(es, d.payload);
    IdsRoundTrip(d, WITH_EXTENSIONS, rest);
  }
}
