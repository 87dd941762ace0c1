/** Messages cut short: no reader takes part of a message for the whole. */
module Truncation {
  import opened Bytes
  import opened Varint
  import opened Wire
  import opened Framing
  import opened Messages
  import opened ControlStream

  // ---- Reading depends only on what is read ---------------------------------------------

  lemma ReadStringMore(s: seq<byte>, more: seq<byte>)
    requires ReadString(s).Ok?
    ensures ReadString(s + more) == Ok(ReadString(s).value, ReadString(s).rest + more)
  {
    hide ReadVarint;
    ReadVarintMore(s, more);
    var head := ReadVarint(s);
    var len, t := head.value, head.rest;
    assert (t + more)[..len] == t[..len] && (t + more)[len..] == t[len..] + more;
  }

  lemma {:induction false} ReadStringsMore(n: nat, s: seq<byte>, acc: seq<Str>, more: seq<byte>)
    requires ReadStrings(n, s, acc).Ok?
    ensures ReadStrings(n, s + more, acc)
            == Ok(ReadStrings(n, s, acc).value, ReadStrings(n, s, acc).rest + more)
  {
    hide ReadString;
    if n > 0 {
      ReadStringMore(s, more);
      var part := ReadString(s);
      ReadStringsMore(n - 1, part.rest, acc + [part.value], more);
    }
  }

  lemma ReadNamespaceMore(s: seq<byte>, more: seq<byte>)
    requires ReadNamespace(s).Ok?
    ensures ReadNamespace(s + more) == Ok(ReadNamespace(s).value, ReadNamespace(s).rest + more)
  {
    hide ReadVarint, ReadStrings;
    ReadVarintMore(s, more);
    var head := ReadVarint(s);
    ReadStringsMore(head.value, head.rest, [], more);
  }

  lemma ReadPairMore(s: seq<byte>, prev: u64, more: seq<byte>)
    requires ReadPair(s, prev).Ok?
    ensures ReadPair(s + more, prev) == Ok(ReadPair(s, prev).value, ReadPair(s, prev).rest + more)
  {
    hide ReadVarint, ReadString;
    ReadVarintMore(s, more);
    var head := ReadVarint(s);
    var key, t := (prev + head.value) % TWO64, head.rest;
    if key % 2 == 1 {
      ReadStringMore(t, more);
    } else {
      ReadVarintMore(t, more);
    }
  }

  lemma {:induction false} ReadPairsMore(n: nat, s: seq<byte>, prev: u64, acc: seq<KvpParam>, more: seq<byte>)
    requires ReadPairs(n, s, prev, acc).Ok?
    ensures ReadPairs(n, s + more, prev, acc)
            == Ok(ReadPairs(n, s, prev, acc).value, ReadPairs(n, s, prev, acc).rest + more)
  {
    hide ReadPair;
    if n > 0 {
      ReadPairMore(s, prev, more);
      var pair := ReadPair(s, prev);
      ReadPairsMore(n - 1, pair.rest, pair.value.key, acc + [pair.value], more);
    }
  }

  lemma ReadParamsMore(s: seq<byte>, more: seq<byte>)
    requires ReadParams(s).Ok?
    ensures ReadParams(s + more) == Ok(ReadParams(s).value, ReadParams(s).rest + more)
  {
    hide ReadVarint, ReadPairs;
    ReadVarintMore(s, more);
    var head := ReadVarint(s);
    ReadPairsMore(head.value, head.rest, 0, [], more);
  }

  lemma ReadSubscribeMore(s: seq<byte>, more: seq<byte>)
    requires ReadSubscribe(s).Ok?
    ensures ReadSubscribe(s + more) == Ok(ReadSubscribe(s).value, ReadSubscribe(s).rest + more)
  {
    hide ReadVarint, ReadNamespace, ReadString, ReadParams, FieldsOf;
    ReadVarintMore(s, more);
    var t := ReadVarint(s).rest;
    ReadNamespaceMore(t, more);
    var u := ReadNamespace(t).rest;
    ReadStringMore(u, more);
    ReadParamsMore(ReadString(u).rest, more);
  }

  lemma ReadSubscribeOkMore(s: seq<byte>, more: seq<byte>)
    requires ReadSubscribeOk(s).Ok?
    ensures ReadSubscribeOk(s + more) == Ok(ReadSubscribeOk(s).value, ReadSubscribeOk(s).rest + more)
  {
    hide ReadVarint, ReadParams, OkFrom;
    ReadVarintMore(s, more);
    var t := ReadVarint(s).rest;
    ReadVarintMore(t, more);
    ReadParamsMore(ReadVarint(t).rest, more);
  }

  lemma ReadAnnounceMore(s: seq<byte>, more: seq<byte>)
    requires ReadAnnounce(s).Ok?
    ensures ReadAnnounce(s + more) == Ok(ReadAnnounce(s).value, ReadAnnounce(s).rest + more)
  {
    hide ReadVarint, ReadNamespace, ReadParams;
    ReadVarintMore(s, more);
    var t := ReadVarint(s).rest;
    ReadNamespaceMore(t, more);
    ReadParamsMore(ReadNamespace(t).rest, more);
  }

  // ---- Cut short ---------------------------------------------------------------------

  /** An encoded parameter list cut anywhere does not parse. */
  lemma ParamsTruncated(ps: seq<KvpParam>, bytes: seq<byte>, k: nat)
    requires |ps| < TWO62 && forall p :: p in ps ==> Sendable(p)
    requires EncodesParams(ps, bytes) && k < |bytes|
    ensures !ReadParams(bytes[..k]).Ok?
  {
    hide ReadParams, EncodesParams;
    var sorted := ParamsRoundTrip(ps, bytes, []);
    assert bytes + [] == bytes == bytes[..k] + bytes[k..];
    if ReadParams(bytes[..k]).Ok? {
      ReadParamsMore(bytes[..k], bytes[k..]);
    }
  }

  /** A SUBSCRIBE whose content is cut anywhere is refused, whatever it carries. */
  lemma SubscribeTruncated(c: SubscribeConfig, content: seq<byte>, bytes: seq<byte>, k: nat)
    requires IsSubscribe(c, content, bytes) && Fits(c, content) && k < |content|
    ensures !ReadSubscribe(content[..k]).Ok?
  {
    hide ReadSubscribe, EncodesParams, SubscribeHead, SubscribeParams, Fits;
    var params :| EncodesParams(SubscribeParams(c), params) && content == SubscribeHead(c) + params;
    var sorted := ContentRoundTrip(c, content, params);
    assert content == content[..k] + content[k..];
    if ReadSubscribe(content[..k]).Ok? {
      ReadSubscribeMore(content[..k], content[k..]);
    }
  }

  lemma SubscribeOkTruncated(c: SubscribeOk, content: seq<byte>, bytes: seq<byte>, k: nat)
    requires IsSubscribeOk(c, content, bytes) && OkInRange(c) && k < |content|
    ensures !ReadSubscribeOk(content[..k]).Ok?
  {
    hide ReadSubscribeOk, IsSubscribeOk, OkInRange;
    SubscribeOkRoundTrip(c, content, bytes, []);
    assert content == content[..k] + content[k..];
    if ReadSubscribeOk(content[..k]).Ok? {
      ReadSubscribeOkMore(content[..k], content[k..]);
    }
  }

  lemma AnnounceTruncated(requestId: u64, ns: seq<Str>, k: nat)
    requires requestId < TWO62 && |ns| < TWO62 && forall s :: s in ns ==> |s| <= MAX_LEN
    requires k < |AnnounceContent(requestId, ns)|
    ensures !ReadAnnounce(AnnounceContent(requestId, ns)[..k]).Ok?
  {
    hide ReadAnnounce, AnnounceContent;
    AnnounceRoundTrip(requestId, ns);
    var content := AnnounceContent(requestId, ns);
    assert content == content[..k] + content[k..];
    if ReadAnnounce(content[..k]).Ok? {
      ReadAnnounceMore(content[..k], content[k..]);
    }
  }

  /**
   * The session becomes ready on message type 0x21 with a whole parameter list, and on nothing else that carries one:
   * neither another type nor a list cut short.
   */
  lemma ReadyExactly(msgType: u64, ps: seq<KvpParam>, bytes: seq<byte>, k: nat)
    requires |ps| < TWO62 && forall p :: p in ps ==> Sendable(p)
    requires EncodesParams(ps, bytes) && k <= |bytes|
    ensures MakesReady(Message(msgType, bytes[..k])) <==> msgType == 0x21 && k == |bytes|
  {
    hide ReadParams, EncodesParams;
    if k < |bytes| {
      ParamsTruncated(ps, bytes, k);
    } else {
      var sorted := ParamsRoundTrip(ps, bytes, []);
      assert bytes[..k] == bytes == bytes + [];
    }
  }
}
