/** The SUBSCRIBE, SUBSCRIBE_OK and ANNOUNCE message layers over parameters, namespaces and framing. */
module Messages {
  import opened Bytes
  import opened Varint
  import opened Wire
  import opened Framing

  const KEY_AUTH_TOKEN: u64 := 0x03
  const KEY_EXPIRES: u64 := 0x08
  const KEY_LARGEST_OBJECT: u64 := 0x09
  const KEY_FORWARD: u64 := 0x10
  const KEY_PRIORITY: u64 := 0x20
  const KEY_FILTER: u64 := 0x21
  const KEY_GROUP_ORDER: u64 := 0x22

  const FILTER_LATEST_GROUP: u64 := 1
  const FILTER_LATEST_OBJECT: u64 := 2

  // ---- SUBSCRIBE ----------------------------------------------------------------

  datatype SubscribeConfig = SubscribeConfig(
    requestId: u64, trackNamespace: seq<Str>, trackName: Str, priority: byte, groupOrder: byte, forward: byte,
    filterType: u64, authorization: Str, extraParams: seq<KvpParam>)

  function BuiltParams(c: SubscribeConfig): seq<KvpParam> {
    [KvpParam(KEY_PRIORITY, c.priority, []), KvpParam(KEY_GROUP_ORDER, c.groupOrder, []),
     KvpParam(KEY_FORWARD, c.forward, []), KvpParam(KEY_FILTER, 0, EncodeVarint(c.filterType))]
  }

  function AuthParams(c: SubscribeConfig): seq<KvpParam> {
    if c.authorization == [] then [] else [KvpParam(KEY_AUTH_TOKEN, 0, c.authorization)]
  }

  /** The four moved fields, the token if there is one, then the host's own. */
  function SubscribeParams(c: SubscribeConfig): seq<KvpParam> {
    BuiltParams(c) + AuthParams(c) + c.extraParams
  }

  function SubscribeHead(c: SubscribeConfig): seq<byte> {
    EncodeVarint(c.requestId) + Namespace(c.trackNamespace) + EncodeString(c.trackName)
  }

  /** `bytes` is a SUBSCRIBE for `c`, whatever order std::sort left equal keys in. */
  ghost predicate IsSubscribe(c: SubscribeConfig, content: seq<byte>, bytes: seq<byte>) {
    && bytes == Frame(Message(SUBSCRIBE, content))
    && exists params :: EncodesParams(SubscribeParams(c), params) && content == SubscribeHead(c) + params
  }

  method BuildSubscribe(c: SubscribeConfig) returns (bytes: seq<byte>)
    ensures exists content :: IsSubscribe(c, content, bytes)
  {
    var body := EncodeVarint(c.requestId);
    var ns := EncodeNamespace(c.trackNamespace);
    body := body + ns;
    body := body + EncodeString(c.trackName);
    var params := [KvpParam(KEY_PRIORITY, c.priority, [])];
    params := params + [KvpParam(KEY_GROUP_ORDER, c.groupOrder, [])];
    params := params + [KvpParam(KEY_FORWARD, c.forward, [])];
    params := params + [KvpParam(KEY_FILTER, 0, EncodeVarint(c.filterType))];
    if c.authorization != [] {
      params := params + [KvpParam(KEY_AUTH_TOKEN, 0, c.authorization)];
    }
    params := params + c.extraParams;
    assert params == SubscribeParams(c);
    var encoded := EncodeParams(params);
    body := body + encoded;
    bytes := BuildControlMessage(SUBSCRIBE, body);
    assert IsSubscribe(c, body, bytes);
  }

  /** The fields that moved into parameters. */
  datatype Fields = Fields(priority: byte, groupOrder: byte, forward: byte, filterType: u64)

  const DEFAULT_FIELDS := Fields(128, 1, 1, FILTER_LATEST_OBJECT)

  function WithParam(f: Fields, p: KvpParam): Fields {
    if p.key == KEY_PRIORITY then f.(priority := p.intValue % 256)
    else if p.key == KEY_GROUP_ORDER then f.(groupOrder := p.intValue % 256)
    else if p.key == KEY_FORWARD then f.(forward := p.intValue % 256)
    else if p.key == KEY_FILTER && ReadVarint(p.bytesValue).Ok? then
      f.(filterType := ReadVarint(p.bytesValue).value)
    else f
  }

  /** Later parameters overwrite earlier ones. */
  function FieldsOf(ps: seq<KvpParam>): Fields {
    if ps == [] then DEFAULT_FIELDS else WithParam(FieldsOf(ps[..|ps| - 1]), ps[|ps| - 1])
  }

  datatype SubscribeResult = SubscribeResult(requestId: u64, trackNamespace: seq<Str>, trackName: Str,
                                             fields: Fields, params: seq<KvpParam>)

  function ReadSubscribe(content: seq<byte>): Parse<SubscribeResult> {
    var (requestId, s) :- ReadVarint(content);
    var (ns, t) :- ReadNamespace(s);
    var (name, u) :- ReadString(t);
    var (params, rest) :- ReadParams(u);
    Ok(SubscribeResult(requestId, ns, name, FieldsOf(params), params), rest)
  }

  method ParseSubscribe(content: seq<byte>) returns (r: Parse<SubscribeResult>)
    ensures r == ReadSubscribe(content)
  {
    hide ReadVarint, ReadNamespace, ReadString, ReadParams, WithParam;
    var head :- ReadVarint(content);
    var ns := DecodeNamespace(head.1);
    if !ns.Ok? {
      return ns.PropagateFailure();
    }
    var name :- ReadString(ns.rest);
    var params := DecodeParams(name.1);
    if !params.Ok? {
      return params.PropagateFailure();
    }
    var fields, ps := DEFAULT_FIELDS, params.value;
    for i := 0 to |ps|
      invariant fields == FieldsOf(ps[..i])
    {
      fields := WithParam(fields, ps[i]);
      assert ps[..i + 1][..i] == ps[..i];
    }
    assert ps[..|ps|] == ps;
    r := Ok(SubscribeResult(head.0, ns.value, name.0, fields, ps), params.rest);
  }

  /** Without a parameter on its key a field has its default. */
  lemma {:induction false} FieldsDefault(ps: seq<KvpParam>)
    ensures (forall p :: p in ps ==> p.key != 0x20) ==> FieldsOf(ps).priority == 128
    ensures (forall p :: p in ps ==> p.key != 0x22) ==> FieldsOf(ps).groupOrder == 1
    ensures (forall p :: p in ps ==> p.key != 0x10) ==> FieldsOf(ps).forward == 1
    ensures (forall p :: p in ps ==> p.key != 0x21) ==> FieldsOf(ps).filterType == 2
  {
    hide ReadVarint;
    if ps != [] {
      FieldsDefault(ps[..|ps| - 1]);
      assert ps[|ps| - 1] in ps;
    }
  }

  /** The last parameter on a key decides its field. */
  lemma {:induction false} FieldsDecided(before: seq<KvpParam>, p: KvpParam, after: seq<KvpParam>)
    requires forall q :: q in after ==> q.key != p.key
    ensures var f := FieldsOf(before + [p] + after);
      && (p.key == 0x20 ==> f.priority == p.intValue % 256)
      && (p.key == 0x22 ==> f.groupOrder == p.intValue % 256)
      && (p.key == 0x10 ==> f.forward == p.intValue % 256)
      && (p.key == 0x21 && ReadVarint(p.bytesValue).Ok? ==> f.filterType == ReadVarint(p.bytesValue).value)
  {
    hide ReadVarint;
    var all := before + [p] + after;
    if after == [] {
      assert all[..|all| - 1] == before;
    } else {
      var init := after[..|after| - 1];
      FieldsDecided(before, p, init);
      assert all[..|all| - 1] == before + [p] + init;
      assert all[|all| - 1] in after;
    }
  }

  // ---- SUBSCRIBE round trip ---------------------------------------------------------

  function FieldsFor(c: SubscribeConfig): Fields {
    Fields(c.priority, c.groupOrder, c.forward, c.filterType)
  }

  /** Everything fits its number range and the content its 16-bit length. */
  ghost predicate Fits(c: SubscribeConfig, content: seq<byte>) {
    && c.requestId < TWO62 && c.filterType < TWO62 && |content| < 0x1_0000
    && |c.trackNamespace| < TWO62 && (forall s :: s in c.trackNamespace ==> |s| <= MAX_LEN)
    && |c.trackName| <= MAX_LEN && |c.authorization| <= MAX_LEN
    && |SubscribeParams(c)| < TWO62 && forall p :: p in c.extraParams ==> Sendable(p)
  }

  /** A parameter that would not change the field it is read into. */
  predicate Agrees(c: SubscribeConfig, p: KvpParam) {
    WithParam(FieldsFor(c), p) == FieldsFor(c)
  }

  lemma AllSendable(c: SubscribeConfig, content: seq<byte>)
    requires Fits(c, content)
    ensures forall p :: p in SubscribeParams(c) ==> Sendable(p)
  {
    hide EncodeVarint;
    assert |EncodeVarint(c.filterType)| <= 8;
    forall p | p in SubscribeParams(c)
      ensures Sendable(p)
    {
      assert p in BuiltParams(c) || p in AuthParams(c) || p in c.extraParams;
    }
  }

  lemma ContentRoundTrip(c: SubscribeConfig, content: seq<byte>, params: seq<byte>) returns (sorted: seq<KvpParam>)
    requires Fits(c, content) && EncodesParams(SubscribeParams(c), params)
    requires content == SubscribeHead(c) + params
    ensures IsKeySort(SubscribeParams(c), sorted)
    ensures ReadSubscribe(content) ==
            Ok(SubscribeResult(c.requestId, c.trackNamespace, c.trackName, FieldsOf(AllCarried(sorted)),
                               AllCarried(sorted)), [])
  {
    hide EncodeVarint, ReadVarint, Namespace, ReadNamespace, EncodeString, ReadString, EncodesParams, ReadParams,
      FieldsOf;
    var t := EncodeString(c.trackName) + params;
    var s := Namespace(c.trackNamespace) + t;
    assert content == EncodeVarint(c.requestId) + s;
    VarintDecodes(c.requestId, s);
    NamespaceRoundTrip(c.trackNamespace, t);
    StringRoundTrip(c.trackName, params);
    AllSendable(c, content);
    sorted := ParamsRoundTrip(SubscribeParams(c), params, []);
    assert params + [] == params;
  }

  lemma CarriedAgrees(c: SubscribeConfig, p: KvpParam)
    ensures Agrees(c, Carried(p)) <==> Agrees(c, p)
  {
  }

  lemma BuiltAgrees(c: SubscribeConfig)
    requires c.filterType < TWO62
    ensures forall p :: p in BuiltParams(c) + AuthParams(c) ==> Agrees(c, p)
    ensures ReadVarint(EncodeVarint(c.filterType)) == Ok(c.filterType, [])
  {
    hide EncodeVarint, ReadVarint;
    VarintDecodes(c.filterType, []);
    assert EncodeVarint(c.filterType) + [] == EncodeVarint(c.filterType);
  }

  /** Agreeing parameters leave every field either at its default or, once its key is seen, as configured. */
  lemma {:induction false} AgreeingFields(c: SubscribeConfig, ps: seq<KvpParam>)
    requires forall p :: p in ps ==> Agrees(c, p)
    ensures (exists p :: p in ps && p.key == KEY_PRIORITY) ==> FieldsOf(ps).priority == c.priority
    ensures (exists p :: p in ps && p.key == KEY_GROUP_ORDER) ==> FieldsOf(ps).groupOrder == c.groupOrder
    ensures (exists p :: p in ps && p.key == KEY_FORWARD) ==> FieldsOf(ps).forward == c.forward
    ensures (exists p :: p in ps && p.key == KEY_FILTER && ReadVarint(p.bytesValue).Ok?) ==>
              FieldsOf(ps).filterType == c.filterType
  {
    hide ReadVarint;
    if ps != [] {
      var init, last := ps[..|ps| - 1], ps[|ps| - 1];
      AgreeingFields(c, init);
      assert ps == init + [last];
      assert Agrees(c, last);
    }
  }

  lemma SentAs(sorted: seq<KvpParam>, ps: seq<KvpParam>, p: KvpParam)
    requires IsKeySort(ps, sorted) && p in ps
    ensures Carried(p) in AllCarried(sorted)
  {
    SameElements(ps, sorted);
    var i :| 0 <= i < |sorted| && sorted[i] == p;
    assert AllCarried(sorted)[i] == Carried(p);
  }

  /** All four keys are among the parameters sent. */
  lemma AllFieldsSent(c: SubscribeConfig, sorted: seq<KvpParam>)
    requires c.filterType < TWO62 && IsKeySort(SubscribeParams(c), sorted)
    requires forall p :: p in c.extraParams ==> Agrees(c, p)
    ensures FieldsOf(AllCarried(sorted)) == FieldsFor(c)
  {
    hide ReadVarint, EncodeVarint, FieldsOf;
    BuiltAgrees(c);
    SameElements(SubscribeParams(c), sorted);
    var r := AllCarried(sorted);
    forall p | p in r
      ensures Agrees(c, p)
    {
      var i :| 0 <= i < |r| && r[i] == p;
      assert sorted[i] in SubscribeParams(c);
      CarriedAgrees(c, sorted[i]);
    }
    AgreeingFields(c, r);
    var b := BuiltParams(c);
    SentAs(sorted, SubscribeParams(c), b[0]);
    SentAs(sorted, SubscribeParams(c), b[1]);
    SentAs(sorted, SubscribeParams(c), b[2]);
    SentAs(sorted, SubscribeParams(c), b[3]);
  }

  // ---- The other direction: a disagreeing parameter can win ---------------------------

  /** The field a key is read into is not the configured one. */
  predicate Lost(c: SubscribeConfig, f: Fields, key: u64) {
    || (key == KEY_PRIORITY && f.priority != c.priority)
    || (key == KEY_GROUP_ORDER && f.groupOrder != c.groupOrder)
    || (key == KEY_FORWARD && f.forward != c.forward)
    || (key == KEY_FILTER && f.filterType != c.filterType)
  }

  /** Once lost, a field stays lost through parameters with other keys. */
  lemma {:induction false} StaysLost(c: SubscribeConfig, before: seq<KvpParam>, p: KvpParam, after: seq<KvpParam>)
    requires !Agrees(c, p) && forall q :: q in after ==> q.key != p.key
    ensures Lost(c, FieldsOf(before + [p] + after), p.key)
  {
    hide ReadVarint;
    var all := before + [p] + after;
    if after == [] {
      assert all[..|all| - 1] == before;
    } else {
      var init := after[..|after| - 1];
      StaysLost(c, before, p, init);
      assert all[..|all| - 1] == before + [p] + init;
      assert all[|all| - 1] in after;
    }
  }

  /** The place behind every key up to `key`. */
  lemma {:induction false} PlaceAfter(sorted: seq<KvpParam>, key: u64) returns (k: nat)
    requires SortedByKey(sorted)
    ensures k <= |sorted|
    ensures forall i :: 0 <= i < k ==> sorted[i].key <= key
    ensures forall i :: k <= i < |sorted| ==> sorted[i].key > key
  {
    if sorted == [] || sorted[0].key > key {
      k := 0;
    } else {
      k := PlaceAfter(sorted[1..], key);
      k := k + 1;
      forall i | k <= i < |sorted|
        ensures sorted[i].key > key
      {
        assert sorted[i] == sorted[1..][i - 1];
      }
      forall i | 0 <= i < k
        ensures sorted[i].key <= key
      {
        assert i > 0 ==> sorted[i] == sorted[1..][i - 1];
      }
    }
  }

  lemma WithoutOne(ps: seq<KvpParam>, p: KvpParam) returns (others: seq<KvpParam>)
    requires p in ps
    ensures multiset(ps) == multiset(others) + multiset{p}
  {
    var i :| 0 <= i < |ps| && ps[i] == p;
    others := ps[..i] + ps[i + 1..];
    assert ps == ps[..i] + [p] + ps[i + 1..];
  }

  lemma PlacedSorted(before: seq<KvpParam>, p: KvpParam, after: seq<KvpParam>)
    requires SortedByKey(before + after)
    requires forall q :: q in before ==> q.key <= p.key
    requires forall q :: q in after ==> q.key > p.key
    ensures SortedByKey(before + [p] + after)
  {
    var all := before + [p] + after;
    forall i, j | 0 <= i < j < |all|
      ensures all[i].key <= all[j].key
    {
      if i < |before| {
        assert all[i] in before && all[i] == (before + after)[i];
        assert j < |before| ==> all[j] == (before + after)[j];
        assert j > |before| ==> all[j] == (before + after)[j - 1];
      } else {
        assert all[j] in after;
        assert i > |before| ==> all[i] == (before + after)[i - 1] && all[j] == (before + after)[j - 1];
      }
    }
  }

  /** A sort may put any one parameter last among those with its key. */
  lemma SortedLast(ps: seq<KvpParam>, p: KvpParam) returns (before: seq<KvpParam>, after: seq<KvpParam>)
    requires p in ps
    ensures IsKeySort(ps, before + [p] + after)
    ensures forall q :: q in after ==> q.key != p.key
  {
    hide SomeKeySort;
    var others := WithoutOne(ps, p);
    var sorted := SomeKeySort(others);
    SomeKeySortSorts(others);
    var k := PlaceAfter(sorted, p.key);
    before, after := sorted[..k], sorted[k..];
    assert sorted == before + after;
    PlacedSorted(before, p, after);
    assert multiset(before + [p] + after) == multiset(sorted) + multiset{p};
  }

  lemma DisagreeingLoses(c: SubscribeConfig, p: KvpParam) returns (sorted: seq<KvpParam>)
    requires p in c.extraParams && !Agrees(c, p)
    ensures IsKeySort(SubscribeParams(c), sorted) && FieldsOf(AllCarried(sorted)) != FieldsFor(c)
  {
    hide ReadVarint, FieldsOf, BuiltParams, AuthParams;
    var before, after := SortedLast(SubscribeParams(c), p);
    sorted := before + [p] + after;
    CarriedAgrees(c, p);
    StaysLost(c, AllCarried(before), Carried(p), AllCarried(after));
    assert AllCarried(sorted) == AllCarried(before) + [Carried(p)] + AllCarried(after);
  }

  /**
   * The four fields come back under every order the sort may choose exactly when each of the host's parameters
   * that uses one of their keys carries the configured value (or, for the filter, no decodable one).
   */
  lemma FieldsRecovered(c: SubscribeConfig)
    requires c.filterType < TWO62
    ensures (forall sorted :: IsKeySort(SubscribeParams(c), sorted) ==> FieldsOf(AllCarried(sorted)) == FieldsFor(c))
            <==> (forall p :: p in c.extraParams ==> Agrees(c, p))
  {
    if forall p :: p in c.extraParams ==> Agrees(c, p) {
      forall sorted | IsKeySort(SubscribeParams(c), sorted)
        ensures FieldsOf(AllCarried(sorted)) == FieldsFor(c)
      {
        AllFieldsSent(c, sorted);
      }
    } else {
      var p :| p in c.extraParams && !Agrees(c, p);
      var sorted := DisagreeingLoses(c, p);
    }
  }

  /** A host parameter on the priority key, as the subscribe callback makes it, can replace the configured priority. */
  lemma HostPriorityCanWin(c: SubscribeConfig, value: Str)
    requires c.priority == 128 && c.extraParams == [KvpParam(KEY_PRIORITY, 0, value)]
    ensures exists sorted :: IsKeySort(SubscribeParams(c), sorted) && FieldsOf(AllCarried(sorted)) != FieldsFor(c)
  {
    var sorted := DisagreeingLoses(c, c.extraParams[0]);
  }

  /**
   * SUBSCRIBE through all layers: the frame gives back the content, and the content every field and a key-sorted
   * permutation of all parameters, the token and the host's included.
   */
  lemma {:induction false} SubscribeRoundTrip(c: SubscribeConfig, content: seq<byte>, bytes: seq<byte>, rest: seq<byte>)
      returns (sorted: seq<KvpParam>)
    requires IsSubscribe(c, content, bytes) && Fits(c, content)
    requires forall p :: p in c.extraParams ==> Agrees(c, p)
    ensures ReadFrame(bytes + rest) == Ok(Message(SUBSCRIBE, content), rest)
    ensures IsKeySort(SubscribeParams(c), sorted)
    ensures ReadSubscribe(content) ==
            Ok(SubscribeResult(c.requestId, c.trackNamespace, c.trackName, FieldsFor(c), AllCarried(sorted)), [])
  {
    hide ReadFrame, ReadSubscribe, EncodesParams, SubscribeHead, SubscribeParams, FieldsOf;
    var params :| EncodesParams(SubscribeParams(c), params) && content == SubscribeHead(c) + params;
    FrameRoundTrip(Message(SUBSCRIBE, content), rest);
    sorted := ContentRoundTrip(c, content, params);
    AllFieldsSent(c, sorted);
  }

  /** Host parameters that avoid the four keys agree with everything. */
  lemma OtherKeysAgree(c: SubscribeConfig, p: KvpParam)
    requires p.key !in {KEY_PRIORITY, KEY_GROUP_ORDER, KEY_FORWARD, KEY_FILTER}
    ensures Agrees(c, p)
  {
  }

  /** In particular the round trip is complete whatever else the host adds. */
  lemma {:induction false} PlainExtrasRoundTrip(c: SubscribeConfig, content: seq<byte>, bytes: seq<byte>,
                                                    rest: seq<byte>)
      returns (sorted: seq<KvpParam>)
    requires IsSubscribe(c, content, bytes) && Fits(c, content)
    requires forall p :: p in c.extraParams ==> p.key !in {KEY_PRIORITY, KEY_GROUP_ORDER, KEY_FORWARD, KEY_FILTER}
    ensures ReadFrame(bytes + rest) == Ok(Message(SUBSCRIBE, content), rest)
    ensures IsKeySort(SubscribeParams(c), sorted)
    ensures ReadSubscribe(content) ==
            Ok(SubscribeResult(c.requestId, c.trackNamespace, c.trackName, FieldsFor(c), AllCarried(sorted)), [])
  {
    hide IsSubscribe, Fits, Agrees, ReadFrame, ReadSubscribe, SubscribeParams;
    forall p | p in c.extraParams
      ensures Agrees(c, p)
    {
      OtherKeysAgree(c, p);
    }
    sorted := SubscribeRoundTrip(c, content, bytes, rest);
  }

  // ---- SUBSCRIBE_OK ---------------------------------------------------------------

  datatype SubscribeOk = SubscribeOk(requestId: u64, trackAlias: u64, expiresMs: u64, groupOrder: byte,
                                     contentExists: bool, largestGroupId: u64, largestObjectId: u64)

  function Location(c: SubscribeOk): seq<byte> {
    EncodeVarint(c.largestGroupId) + EncodeVarint(c.largestObjectId)
  }

  /** Only what differs from the absent value is sent; the keys are already ascending. */
  function OkParams(c: SubscribeOk): seq<KvpParam> {
    (if c.expiresMs > 0 then [KvpParam(KEY_EXPIRES, c.expiresMs, [])] else [])
    + (if c.contentExists then [KvpParam(KEY_LARGEST_OBJECT, 0, Location(c))] else [])
    + (if c.groupOrder != 0 then [KvpParam(KEY_GROUP_ORDER, c.groupOrder, [])] else [])
  }

  function OkHead(c: SubscribeOk): seq<byte> {
    EncodeVarint(c.requestId) + EncodeVarint(c.trackAlias)
  }

  ghost predicate IsSubscribeOk(c: SubscribeOk, content: seq<byte>, bytes: seq<byte>) {
    && bytes == Frame(Message(SUBSCRIBE_OK, content))
    && exists params :: EncodesParams(OkParams(c), params) && content == OkHead(c) + params
  }

  method BuildSubscribeOk(c: SubscribeOk) returns (bytes: seq<byte>)
    ensures exists content :: IsSubscribeOk(c, content, bytes)
  {
    hide EncodeVarint, EncodesParams, Location, Frame;
    var body := EncodeVarint(c.requestId);
    body := body + EncodeVarint(c.trackAlias);
    var params: seq<KvpParam> := [];
    if c.expiresMs > 0 {
      params := params + [KvpParam(KEY_EXPIRES, c.expiresMs, [])];
    }
    if c.contentExists {
      params := params + [KvpParam(KEY_LARGEST_OBJECT, 0, Location(c))];
    }
    if c.groupOrder != 0 {
      params := params + [KvpParam(KEY_GROUP_ORDER, c.groupOrder, [])];
    }
    assert params == OkParams(c);
    var encoded := EncodeParams(params);
    body := body + encoded;
    bytes := BuildControlMessage(SUBSCRIBE_OK, body);
    assert IsSubscribeOk(c, body, bytes);
  }

  /** decode_varint's value, which is 0 when it fails. */
  function ValueOr0(s: seq<byte>): u64 {
    var r := ReadVarint(s);
    if r.Ok? then r.value else 0
  }

  function WithLocation(c: SubscribeOk, s: seq<byte>): SubscribeOk {
    var r := ReadVarint(s);
    c.(contentExists := true, largestGroupId := ValueOr0(s),
       largestObjectId := if r.Ok? then ValueOr0(r.rest) else c.largestObjectId)
  }

  function WithOkParam(c: SubscribeOk, p: KvpParam): SubscribeOk {
    if p.key == KEY_EXPIRES then c.(expiresMs := p.intValue)
    else if p.key == KEY_GROUP_ORDER then c.(groupOrder := p.intValue % 256)
    else if p.key == KEY_LARGEST_OBJECT then WithLocation(c, p.bytesValue)
    else c
  }

  function OkFrom(c: SubscribeOk, ps: seq<KvpParam>): SubscribeOk {
    if ps == [] then c else WithOkParam(OkFrom(c, ps[..|ps| - 1]), ps[|ps| - 1])
  }

  function ReadSubscribeOk(content: seq<byte>): Parse<SubscribeOk> {
    var (requestId, s) :- ReadVarint(content);
    var (alias, t) :- ReadVarint(s);
    var (params, rest) :- ReadParams(t);
    Ok(OkFrom(SubscribeOk(requestId, alias, 0, 0, false, 0, 0), params), rest)
  }

  method ParseSubscribeOk(content: seq<byte>) returns (r: Parse<SubscribeOk>)
    ensures r == ReadSubscribeOk(content)
  {
    hide ReadVarint, ReadParams, WithOkParam;
    var head :- ReadVarint(content);
    var alias :- ReadVarint(head.1);
    var params := DecodeParams(alias.1);
    if !params.Ok? {
      return params.PropagateFailure();
    }
    ghost var start := SubscribeOk(head.0, alias.0, 0, 0, false, 0, 0);
    var result, ps := SubscribeOk(head.0, alias.0, 0, 0, false, 0, 0), params.value;
    for i := 0 to |ps|
      invariant result == OkFrom(start, ps[..i])
    {
      result := WithOkParam(result, ps[i]);
      assert ps[..i + 1][..i] == ps[..i];
    }
    assert ps[..|ps|] == ps;
    r := Ok(result, params.rest);
  }

  lemma {:induction false} OkIdsKept(c: SubscribeOk, ps: seq<KvpParam>)
    ensures OkFrom(c, ps).requestId == c.requestId && OkFrom(c, ps).trackAlias == c.trackAlias
    ensures (forall p :: p in ps ==> p.key != 0x08) ==> OkFrom(c, ps).expiresMs == c.expiresMs
    ensures (forall p :: p in ps ==> p.key != 0x22) ==> OkFrom(c, ps).groupOrder == c.groupOrder
    ensures (forall p :: p in ps ==> p.key != 0x09) ==> OkFrom(c, ps).contentExists == c.contentExists
  {
    hide ReadVarint;
    if ps != [] {
      OkIdsKept(c, ps[..|ps| - 1]);
      assert ps[|ps| - 1] in ps;
    }
  }

  /** The location read: two varints, 0 for one that does not decode. */
  predicate LocationIs(f: SubscribeOk, group: Parse<u64>) {
    match group
    case Ok(g, rest) =>
      f.largestGroupId == g && f.largestObjectId == if ReadVarint(rest).Ok? then ReadVarint(rest).value else 0
    case _ => f.largestGroupId == 0
  }

  /** The last parameter on a key decides its fields; without one they keep the value they started with. */
  lemma {:induction false} OkDecided(c: SubscribeOk, before: seq<KvpParam>, p: KvpParam, after: seq<KvpParam>)
    requires forall q :: q in after ==> q.key != p.key
    ensures var f := OkFrom(c, before + [p] + after);
      && f.requestId == c.requestId && f.trackAlias == c.trackAlias
      && (p.key == 0x08 ==> f.expiresMs == p.intValue)
      && (p.key == 0x22 ==> f.groupOrder == p.intValue % 256)
      && (p.key == 0x09 ==> f.contentExists && LocationIs(f, ReadVarint(p.bytesValue)))
  {
    hide ReadVarint;
    var all := before + [p] + after;
    OkIdsKept(c, all);
    if after == [] {
      assert all[..|all| - 1] == before;
    } else {
      var init := after[..|after| - 1];
      OkDecided(c, before, p, init);
      assert all[..|all| - 1] == before + [p] + init;
      assert all[|all| - 1] in after;
    }
  }

  predicate OkInRange(c: SubscribeOk) {
    && c.requestId < TWO62 && c.trackAlias < TWO62 && c.expiresMs < TWO62
    && c.largestGroupId < TWO62 && c.largestObjectId < TWO62
    && (!c.contentExists ==> c.largestGroupId == 0 == c.largestObjectId)
  }

  lemma LocationRoundTrip(c: SubscribeOk, d: SubscribeOk)
    requires OkInRange(c)
    ensures WithLocation(d, Location(c))
            == d.(contentExists := true, largestGroupId := c.largestGroupId, largestObjectId := c.largestObjectId)
  {
    hide EncodeVarint, ReadVarint;
    VarintDecodes(c.largestGroupId, EncodeVarint(c.largestObjectId));
    VarintDecodes(c.largestObjectId, []);
    assert EncodeVarint(c.largestObjectId) + [] == EncodeVarint(c.largestObjectId);
  }

  lemma OkFromOptional(c: SubscribeOk, ps: seq<KvpParam>, p: KvpParam, present: bool)
    ensures OkFrom(c, ps + if present then [p] else [])
            == if present then WithOkParam(OkFrom(c, ps), p) else OkFrom(c, ps)
  {
    hide WithOkParam;
    assert (ps + [p])[..|ps|] == ps;
    assert ps + [] == ps;
  }

  lemma OkFromNone(c: SubscribeOk)
    ensures OkFrom(c, []) == c
  {
  }

  lemma OkFromSent(c: SubscribeOk)
    requires OkInRange(c)
    ensures OkFrom(SubscribeOk(c.requestId, c.trackAlias, 0, 0, false, 0, 0), AllCarried(OkParams(c))) == c
  {
    hide OkFrom, WithLocation, Location;
    var start := SubscribeOk(c.requestId, c.trackAlias, 0, 0, false, 0, 0);
    var expires, location := KvpParam(KEY_EXPIRES, c.expiresMs, []), KvpParam(KEY_LARGEST_OBJECT, 0, Location(c));
    var order := KvpParam(KEY_GROUP_ORDER, c.groupOrder, []);
    var a := if c.expiresMs > 0 then [expires] else [];
    var b := if c.contentExists then [location] else [];
    var d := if c.groupOrder != 0 then [order] else [];
    assert AllCarried(OkParams(c)) == a + b + d && [] + a == a;
    OkFromNone(start);
    OkFromOptional(start, [], expires, c.expiresMs > 0);
    OkFromOptional(start, a, location, c.contentExists);
    OkFromOptional(start, a + b, order, c.groupOrder != 0);
    LocationRoundTrip(c, start.(expiresMs := c.expiresMs));
  }

  lemma OkParamsSorted(c: SubscribeOk)
    ensures SortedByKey(OkParams(c)) && DistinctKeys(OkParams(c)) && |OkParams(c)| <= 3
    ensures forall p :: p in OkParams(c) ==> |p.bytesValue| <= 16
  {
    hide EncodeVarint;
  }

  lemma {:induction false} PairsSize(ps: seq<KvpParam>, prev: u64)
    requires forall p :: p in ps ==> |p.bytesValue| <= 16
    ensures |EncodePairs(ps, prev)| <= 32 * |ps|
  {
    hide EncodeVarint;
    if ps != [] {
      PairsSize(ps[1..], ps[0].key);
      assert ps[0] in ps;
    }
  }

  lemma OkContentSmall(c: SubscribeOk, params: seq<byte>)
    requires EncodesParams(OkParams(c), params)
    ensures |OkHead(c) + params| <= 120
  {
    hide EncodeVarint, OkParams;
    OkParamsSorted(c);
    var sorted :| IsKeySort(OkParams(c), sorted) && params == EncodeSorted(sorted);
    SameElements(OkParams(c), sorted);
    PairsSize(sorted, 0);
  }

  lemma OkParamsSendable(c: SubscribeOk)
    requires OkInRange(c)
    ensures forall p :: p in OkParams(c) ==> Sendable(p)
  {
    hide EncodeVarint;
    assert |Location(c)| <= 16;
  }

  /** SUBSCRIBE_OK carries every field back, whatever follows the frame. */
  lemma {:induction false} SubscribeOkRoundTrip(c: SubscribeOk, content: seq<byte>, bytes: seq<byte>, rest: seq<byte>)
    requires IsSubscribeOk(c, content, bytes) && OkInRange(c)
    ensures ReadFrame(bytes + rest) == Ok(Message(SUBSCRIBE_OK, content), rest)
    ensures ReadSubscribeOk(content) == Ok(c, [])
  {
    hide EncodeVarint, ReadVarint, ReadFrame, OkParams, OkFrom, EncodesParams, ReadParams;
    var params :| EncodesParams(OkParams(c), params) && content == OkHead(c) + params;
    FrameRoundTrip(Message(SUBSCRIBE_OK, content), rest);
    var s := EncodeVarint(c.trackAlias) + params;
    assert content == EncodeVarint(c.requestId) + s;
    VarintDecodes(c.requestId, s);
    VarintDecodes(c.trackAlias, params);
    OkParamsSorted(c);
    OkParamsSendable(c);
    var sorted := ParamsRoundTrip(OkParams(c), params, []);
    SortIsUnique(OkParams(c), sorted);
    OkContentSmall(c, params);
    assert params + [] == params;
    OkFromSent(c);
  }

  // ---- ANNOUNCE and the one-field replies -----------------------------------------------

  function AnnounceContent(requestId: u64, ns: seq<Str>): seq<byte> {
    EncodeVarint(requestId) + Namespace(ns) + EncodeVarint(0)
  }

  method BuildAnnounce(requestId: u64, ns: seq<Str>) returns (bytes: seq<byte>)
    ensures bytes == Frame(Message(ANNOUNCE, AnnounceContent(requestId, ns)))
  {
    var content := EncodeVarint(requestId);
    var encoded := EncodeNamespace(ns);
    content := content + encoded;
    content := content + EncodeVarint(0);
    bytes := BuildControlMessage(ANNOUNCE, content);
  }

  datatype Announce = Announce(requestId: u64, trackNamespace: seq<Str>, params: seq<KvpParam>)

  /** parse_announce, and parse_subscribe_announces, which reads the same fields. */
  function ReadAnnounce(content: seq<byte>): Parse<Announce> {
    var (requestId, s) :- ReadVarint(content);
    var (ns, t) :- ReadNamespace(s);
    var (params, rest) :- ReadParams(t);
    Ok(Announce(requestId, ns, params), rest)
  }

  method ParseAnnounce(content: seq<byte>) returns (r: Parse<Announce>)
    ensures r == ReadAnnounce(content)
  {
    hide ReadVarint, ReadNamespace, ReadParams;
    var head :- ReadVarint(content);
    var ns := DecodeNamespace(head.1);
    if !ns.Ok? {
      return ns.PropagateFailure();
    }
    var params := DecodeParams(ns.rest);
    if !params.Ok? {
      return params.PropagateFailure();
    }
    r := Ok(Announce(head.0, ns.value, params.value), params.rest);
  }

  lemma AnnounceRoundTrip(requestId: u64, ns: seq<Str>)
    requires requestId < TWO62 && |ns| < TWO62 && forall s :: s in ns ==> |s| <= MAX_LEN
    ensures ReadAnnounce(AnnounceContent(requestId, ns)) == Ok(Announce(requestId, ns, []), [])
  {
    hide EncodeVarint, ReadVarint, Namespace, ReadNamespace;
    var none := EncodeVarint(0);
    var s := Namespace(ns) + none;
    assert AnnounceContent(requestId, ns) == EncodeVarint(requestId) + s;
    VarintDecodes(requestId, s);
    NamespaceRoundTrip(ns, none);
    VarintDecodes(0, []);
    assert none + [] == none;
  }
}
