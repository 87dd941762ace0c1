/** Control message framing: [type varint][16-bit length][content]. */
module Framing {
  import opened Bytes
  import opened Varint

  datatype Message = Message(msgType: u64, content: seq<byte>)

  const SUBSCRIBE: u64 := 0x03
  const SUBSCRIBE_OK: u64 := 0x04
  const ANNOUNCE: u64 := 0x06
  const ANNOUNCE_OK: u64 := 0x07
  const SUBSCRIBE_ANNOUNCES: u64 := 0x11
  const SUBSCRIBE_ANNOUNCES_OK: u64 := 0x12
  const SERVER_SETUP: u64 := 0x21

  /** The length field holds the low 16 bits of the content's size. */
  function Frame(m: Message): seq<byte> {
    EncodeVarint(m.msgType) + BigEndian(|m.content| % 0x1_0000, 2) + m.content
  }

  function ReadBody(msgType: u64, size: nat, t: seq<byte>): Parse<Message> {
    if size > |t| then Bad else Ok(Message(msgType, t[..size]), t[size..])
  }

  /** Bad means incomplete: wait for more bytes. */
  function ReadFrame(s: seq<byte>): Parse<Message> {
    if |s| < 3 then Bad
    else
      var (msgType, t) :- ReadVarint(s);
      if |t| < 2 then Bad else ReadBody(msgType, FromBigEndian(t[..2]), t[2..])
  }

  method BuildControlMessage(msgType: u64, content: seq<byte>) returns (result: seq<byte>)
    ensures result == Frame(Message(msgType, content))
  {
    result := EncodeVarint(msgType);
    var len: nat := |content| % 0x1_0000;
    assert BigEndian(len, 2) == [len / 256, len % 256] by {
      assert BigEndian(len / 256 / 256, 0) == [];
      assert BigEndian(len / 256, 1) == [len / 256 % 256];
    }
    result := result + [len / 256];
    result := result + [len % 256];
    result := result + content;
  }

  lemma BodyWhole(m: Message, rest: seq<byte>)
    ensures ReadBody(m.msgType, |m.content| % 0x1_0000, m.content + rest) == Ok(m, rest)
            <==> |m.content| < 0x1_0000
  {
    var size := |m.content| % 0x1_0000;
    assert |m.content| < 0x1_0000 ==> size == |m.content|;
    assert (m.content + rest)[..|m.content|] == m.content && (m.content + rest)[|m.content|..] == rest;
  }

  /** The frame comes back whole exactly when the content fits the 16-bit length. */
  lemma FrameRoundTrip(m: Message, rest: seq<byte>)
    requires m.msgType < TWO62
    ensures ReadFrame(Frame(m) + rest) == Ok(m, rest) <==> |m.content| < 0x1_0000
  {
    hide EncodeVarint, ReadVarint, BigEndian;
    var size, e := |m.content| % 0x1_0000, EncodeVarint(m.msgType);
    var len, body := BigEndian(size, 2), m.content + rest;
    var s, t := Frame(m) + rest, BigEndian(size, 2) + m.content + rest;
    VarintDecodes(m.msgType, t);
    assert s == e + t;
    assert ReadVarint(s) == Ok(m.msgType, t);
    assert t[..2] == len && t[2..] == body;
    Pow256Values();
    BigEndianRoundTrip(size, 2);
    assert ReadFrame(s) == ReadBody(m.msgType, size, body);
    BodyWhole(m, rest);
  }

  /** A frame takes at least three bytes off the front. */
  lemma FrameTakesThree(s: seq<byte>)
    requires ReadFrame(s).Ok?
    ensures |ReadFrame(s).rest| + 3 <= |s|
  {
    hide FromBigEndian, VarintValue;
  }

  /** A complete frame is read the same whatever has arrived behind it. */
  lemma ReadFrameMore(s: seq<byte>, more: seq<byte>)
    requires ReadFrame(s).Ok?
    ensures ReadFrame(s + more) == Ok(ReadFrame(s).value, ReadFrame(s).rest + more)
  {
    hide ReadVarint, FromBigEndian;
    var head := ReadVarint(s);
    ReadVarintMore(s, more);
    var t := head.rest;
    assert (t + more)[..2] == t[..2] && (t + more)[2..] == t[2..] + more;
    var size, u := FromBigEndian(t[..2]), t[2..];
    assert (u + more)[..size] == u[..size] && (u + more)[size..] == u[size..] + more;
  }
}
