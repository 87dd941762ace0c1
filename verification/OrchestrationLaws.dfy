/** Ids, tokens and aliases over whole sessions. */
module OrchestrationLaws {
  import opened Bytes
  import opened Varint
  import opened Wire
  import opened Framing
  import opened Messages
  import opened Orchestration

  // ---- Every track is asked for once --------------------------------------------------

  ghost predicate Ascending(sel: seq<nat>) {
    forall j, k :: 0 <= j < k < |sel| ==> sel[j] < sel[k]
  }

  lemma {:induction false} SelectAscends(tracks: seq<Track>, inbound: bool, n: nat)
    requires n <= |tracks|
    ensures Ascending(Select(tracks, inbound, n))
  {
    if n > 0 {
      SelectAscends(tracks, inbound, n - 1);
    }
  }

  lemma {:induction false} SelectHas(tracks: seq<Track>, inbound: bool, n: nat, i: nat)
    requires i < n <= |tracks| && tracks[i].inbound == inbound
    ensures i in Select(tracks, inbound, n)
  {
    if i < n - 1 {
      SelectHas(tracks, inbound, n - 1, i);
    }
  }

  ghost predicate Distinct(order: seq<nat>) {
    forall j, k :: 0 <= j < k < |order| ==> order[j] != order[k]
  }

  /** The order lists each track exactly once, the inbound ones in front. */
  lemma OrderIsPermutation(tracks: seq<Track>)
    ensures |Order(tracks)| == |tracks| && Distinct(Order(tracks))
    ensures forall i: nat :: i < |tracks| ==> i in Order(tracks)
    ensures forall j, k ::
              0 <= j < k < |tracks| && tracks[Order(tracks)[j]].inbound == tracks[Order(tracks)[k]].inbound ==>
                Order(tracks)[j] < Order(tracks)[k]
    ensures forall k :: 0 <= k < |tracks| ==>
                          (tracks[Order(tracks)[k]].inbound <==> k < |Select(tracks, true, |tracks|)|)
  {
    OrderSize(tracks);
    SelectAscends(tracks, true, |tracks|);
    SelectAscends(tracks, false, |tracks|);
    var a, b, order := Select(tracks, true, |tracks|), Select(tracks, false, |tracks|), Order(tracks);
    forall i: nat | i < |tracks|
      ensures i in order
    {
      SelectHas(tracks, tracks[i].inbound, |tracks|, i);
      assert i in a || i in b;
    }
    forall j, k | 0 <= j < k < |order|
      ensures order[j] != order[k]
      ensures tracks[order[j]].inbound == tracks[order[k]].inbound ==> order[j] < order[k]
    {
      assert tracks[order[j]].inbound == (j < |a|) && tracks[order[k]].inbound == (k < |a|);
    }
  }

  // ---- What the requests leave behind --------------------------------------------------

  lemma {:induction false} RequestedForm(s: Session, order: seq<nat>, jwt: Str, k: nat)
    requires k <= |order| && InOrder(s, order) && s.nextRequestId + 2 * |order| < TWO64
    ensures var r := RequestedAll(s, order, jwt, k);
      && r == s.(tracks := r.tracks, requestIds := r.requestIds, tokenSent := r.tokenSent,
                 nextRequestId := s.nextRequestId + 2 * k)
      && forall i :: 0 <= i < |s.tracks| ==> r.tracks[i] == s.tracks[i].(requestId := r.tracks[i].requestId)
  {
    if k > 0 {
      RequestedForm(s, order, jwt, k - 1);
    }
  }

  /** Request `j` was given id next + 2j. */
  lemma {:induction false} RequestedIds(s: Session, order: seq<nat>, jwt: Str, k: nat)
    requires k <= |order| && InOrder(s, order) && Distinct(order) && s.nextRequestId + 2 * |order| < TWO64
    ensures var r := RequestedAll(s, order, jwt, k);
      forall j :: 0 <= j < k ==> r.tracks[order[j]].requestId == s.nextRequestId + 2 * j
  {
    if k > 0 {
      RequestedIds(s, order, jwt, k - 1);
      RequestedForm(s, order, jwt, k - 1);
      var r := RequestedAll(s, order, jwt, k - 1);
      assert RequestedAll(s, order, jwt, k) == Requested(r, order[k - 1], jwt);
      hide RequestedAll;
      forall j | 0 <= j < k
        ensures Requested(r, order[k - 1], jwt).tracks[order[j]].requestId == s.nextRequestId + 2 * j
      {
        assert j < k - 1 ==> order[j] != order[k - 1];
      }
    }
  }

  /** The id map gained exactly those ids. */
  ghost predicate IdsAdded(before: map<u64, nat>, base: nat, order: seq<nat>, k: nat, after: map<u64, nat>)
    requires k <= |order|
  {
    && (forall j :: 0 <= j < k ==> base + 2 * j in after && after[base + 2 * j] == order[j])
    && forall id :: id in after ==> id in before || (base <= id < base + 2 * k && (id - base) % 2 == 0)
  }

  lemma AddId(before: map<u64, nat>, base: nat, order: seq<nat>, k: nat, after: map<u64, nat>)
    requires k < |order| && base + 2 * k < TWO64 && IdsAdded(before, base, order, k, after)
    ensures IdsAdded(before, base, order, k + 1, after[base + 2 * k := order[k]])
  {
  }

  lemma NoIdAdded(before: map<u64, nat>, base: nat, order: seq<nat>)
    ensures IdsAdded(before, base, order, 0, before)
  {
  }

  lemma {:induction false} RequestedMap(s: Session, order: seq<nat>, jwt: Str, k: nat)
    requires k <= |order| && InOrder(s, order) && s.nextRequestId + 2 * |order| < TWO64
    ensures IdsAdded(s.requestIds, s.nextRequestId, order, k, RequestedAll(s, order, jwt, k).requestIds)
  {
    hide IdsAdded;
    if k == 0 {
      NoIdAdded(s.requestIds, s.nextRequestId, order);
    } else {
      RequestedMap(s, order, jwt, k - 1);
      RequestedForm(s, order, jwt, k - 1);
      AddId(s.requestIds, s.nextRequestId, order, k - 1, RequestedAll(s, order, jwt, k - 1).requestIds);
    }
  }

  /** The token is spent by the first inbound request that has one to carry. */
  lemma {:induction false} TokenSpent(s: Session, order: seq<nat>, jwt: Str, k: nat)
    requires k <= |order| && InOrder(s, order)
    ensures RequestedAll(s, order, jwt, k).tokenSent <==>
            s.tokenSent || (jwt != [] && exists j :: 0 <= j < k && s.tracks[order[j]].inbound)
  {
    if k > 0 {
      TokenSpent(s, order, jwt, k - 1);
      SameDirection(s, order, jwt, k - 1, order[k - 1]);
    }
  }

  lemma {:induction false} SentAt(s: Session, order: seq<nat>, jwt: Str, host: nat -> seq<KvpParam>, k: nat, j: nat)
    requires j < k <= |order| && InOrder(s, order)
    ensures SentAll(s, order, jwt, host, k)[j]
            == NextRequest(RequestedAll(s, order, jwt, j), order[j], jwt, host(order[j]))
  {
    if j < k - 1 {
      SentAt(s, order, jwt, host, k - 1, j);
    }
  }

  /** As reset_moq_state leaves it. */
  predicate IsReset(s: Session) {
    s == AfterReset(s)
  }

  /** Request ids are a bijection between the tracks and 0, 2, ..., 2(n - 1), inbound tracks first. */
  lemma IdsAreABijection(s: Session, jwt: Str)
    requires IsReset(s) && 2 * |s.tracks| < TWO64
    ensures var r, order, n := AfterStart(s, jwt), Order(s.tracks), |s.tracks|;
      && |r.tracks| == |order| == n && Distinct(order) && (forall i: nat :: i < n ==> i in order)
      && (forall k :: 0 <= k < n ==> r.tracks[order[k]].requestId == 2 * k)
      && (forall k :: 0 <= k < n ==> 2 * k in r.requestIds && r.requestIds[2 * k] == order[k])
      && (forall id :: id in r.requestIds ==> id < 2 * n && id % 2 == 0)
      && (forall k :: 0 <= k < n ==> (s.tracks[order[k]].inbound <==> k < |Select(s.tracks, true, n)|))
      && (forall j, k :: 0 <= j < k < n && s.tracks[order[j]].inbound == s.tracks[order[k]].inbound ==>
            order[j] < order[k])
  {
    hide RequestedAll, Select, Order;
    var order := Order(s.tracks);
    OrderIsPermutation(s.tracks);
    RequestedIds(s.(started := true), order, jwt, |order|);
    RequestedMap(s.(started := true), order, jwt, |order|);
  }

  /** One SUBSCRIBE per inbound track, then one ANNOUNCE per outbound track; only the first carries the token. */
  lemma RequestsSent(s: Session, jwt: Str, host: nat -> seq<KvpParam>, k: nat)
    requires IsReset(s) && 2 * |s.tracks| < TWO64 && k < |s.tracks|
    ensures var order, n := Order(s.tracks), |s.tracks|;
      && |Requests(s, jwt, host)| == |order| == n
      && Requests(s, jwt, host)[k] ==
         var t := s.tracks[order[k]];
         if k < |Select(s.tracks, true, n)| then
           Subscribing(SubscribeConfig(requestId := 2 * k, trackNamespace := t.trackNamespace,
                                       trackName := t.trackName, priority := 128, groupOrder := 1, forward := 1,
                                       filterType := 1, authorization := if k == 0 then jwt else [],
                                       extraParams := host(order[k])))
         else Announcing(2 * k, t.trackNamespace)
  {
    hide RequestedAll, Select, Order, SentAll;
    var order, started := Order(s.tracks), s.(started := true);
    OrderIsPermutation(s.tracks);
    SentAt(started, order, jwt, host, |order|, k);
    RequestedForm(started, order, jwt, k);
    TokenSpent(started, order, jwt, k);
    var now := RequestedAll(started, order, jwt, k);
    assert now.tracks[order[k]] == s.tracks[order[k]].(requestId := now.tracks[order[k]].requestId);
    if k < |Select(s.tracks, true, |s.tracks|)| && k > 0 {
      assert s.tracks[order[0]].inbound;
    }
  }

  // ---- What the peer reads ----------------------------------------------------------

  /** Numbers below 2^62, and everything together below the 16-bit length. */
  ghost predicate ControlFits(c: Control, bytes: seq<byte>) {
    && |bytes| < 0x1_0000
    && match c
       case Subscribing(config) => Fits(config, [])
       case Announcing(id, ns) => id < TWO62 && |ns| < TWO62 && forall part :: part in ns ==> |part| <= MAX_LEN
       case Granting(ok) => OkInRange(ok)
       case AnnounceOk(id) => id < TWO62
       case SubscribeAnnouncesOk(id) => id < TWO62
  }

  /** What a peer that parses the message finds in it. */
  ghost predicate Says(m: Message, c: Control) {
    match c
    case Subscribing(config) =>
      && m.msgType == 0x03 && ReadSubscribe(m.content).Ok?
      && var r := ReadSubscribe(m.content).value;
         r.requestId == config.requestId && r.trackNamespace == config.trackNamespace && r.trackName == config.trackName
    case Announcing(id, ns) => m.msgType == 0x06 && ReadAnnounce(m.content) == Ok(Announce(id, ns, []), [])
    case Granting(ok) => m.msgType == 0x04 && ReadSubscribeOk(m.content) == Ok(ok, [])
    case AnnounceOk(id) => m.msgType == 0x07 && ReadVarint(m.content) == Ok(id, [])
    case SubscribeAnnouncesOk(id) => m.msgType == 0x12 && ReadVarint(m.content) == Ok(id, [])
  }

  lemma FrameLonger(m: Message)
    ensures |m.content| <= |Frame(m)|
  {
    hide EncodeVarint, BigEndian;
  }

  lemma SubscribeArrives(config: SubscribeConfig, bytes: seq<byte>, rest: seq<byte>) returns (m: Message)
    requires Encodes(Subscribing(config), bytes) && ControlFits(Subscribing(config), bytes)
    ensures ReadFrame(bytes + rest) == Ok(m, rest) && Says(m, Subscribing(config))
  {
    hide ReadFrame, Frame, ReadSubscribe, EncodesParams, SubscribeHead, SubscribeParams;
    var content :| IsSubscribe(config, content, bytes);
    m := Message(SUBSCRIBE, content);
    FrameLonger(m);
    FrameRoundTrip(m, rest);
    var params :| EncodesParams(SubscribeParams(config), params) && content == SubscribeHead(config) + params;
    var sorted := ContentRoundTrip(config, content, params);
  }

  lemma GrantArrives(ok: SubscribeOk, bytes: seq<byte>, rest: seq<byte>) returns (m: Message)
    requires Encodes(Granting(ok), bytes) && OkInRange(ok)
    ensures ReadFrame(bytes + rest) == Ok(m, rest) && Says(m, Granting(ok))
  {
    hide ReadFrame, ReadSubscribeOk, IsSubscribeOk, OkInRange;
    var content :| IsSubscribeOk(ok, content, bytes);
    m := Message(SUBSCRIBE_OK, content);
    SubscribeOkRoundTrip(ok, content, bytes, rest);
  }

  lemma NumberArrives(msgType: u64, id: u64, rest: seq<byte>)
    requires msgType < TWO62 && id < TWO62
    ensures var m := Message(msgType, EncodeVarint(id));
      ReadFrame(Frame(m) + rest) == Ok(m, rest) && ReadVarint(m.content) == Ok(id, [])
  {
    hide EncodeVarint, ReadVarint, ReadFrame, Frame;
    FrameRoundTrip(Message(msgType, EncodeVarint(id)), rest);
    VarintDecodes(id, []);
    assert EncodeVarint(id) + [] == EncodeVarint(id);
  }

  /** Every message sent is read back as what it is meant to say, whatever is sent behind it. */
  lemma ControlArrives(c: Control, bytes: seq<byte>, rest: seq<byte>) returns (m: Message)
    requires Encodes(c, bytes) && ControlFits(c, bytes)
    ensures ReadFrame(bytes + rest) == Ok(m, rest) && Says(m, c)
  {
    hide ReadFrame, Frame, ReadSubscribe, ReadSubscribeOk, ReadAnnounce, ReadVarint, EncodeVarint, AnnounceContent;
    match c {
      case Subscribing(config) => m := SubscribeArrives(config, bytes, rest);
      case Granting(ok) => m := GrantArrives(ok, bytes, rest);
      case Announcing(id, ns) =>
        m := Message(ANNOUNCE, AnnounceContent(id, ns));
        FrameLonger(m);
        FrameRoundTrip(m, rest);
        AnnounceRoundTrip(id, ns);
      case AnnounceOk(id) =>
        m := Message(ANNOUNCE_OK, EncodeVarint(id));
        NumberArrives(ANNOUNCE_OK, id, rest);
      case SubscribeAnnouncesOk(id) =>
        m := Message(SUBSCRIBE_ANNOUNCES_OK, EncodeVarint(id));
        NumberArrives(SUBSCRIBE_ANNOUNCES_OK, id, rest);
    }
  }

  // ---- Aliases -------------------------------------------------------------------

  /** Aliases given so far lie below the next one and lead to outbound tracks. */
  ghost predicate AliasesBounded(s: Session) {
    && 1 <= s.nextTrackAlias
    && forall a :: a in s.outboundAliases ==>
                     && 1 <= a < s.nextTrackAlias
                     && s.outboundAliases[a] < |s.tracks| && !s.tracks[s.outboundAliases[a]].inbound
  }

  predicate LeadsBack(s: Session, i: nat)
    requires i < |s.tracks|
  {
    var a := s.tracks[i].alias;
    a != 0 ==> a in s.outboundAliases && s.outboundAliases[a] == i
  }

  /** And every outbound track's own alias, if it has one, leads back to it. */
  ghost predicate AliasesAgree(s: Session) {
    && AliasesBounded(s)
    && forall i :: 0 <= i < |s.tracks| && !s.tracks[i].inbound ==> LeadsBack(s, i)
  }

  /** The peer's SUBSCRIBE_OK names one of our subscriptions, or nothing at all. */
  predicate AnswersSubscription(s: Session, m: Message)
    requires Routed(s)
  {
    m.msgType == SUBSCRIBE_OK && ReadSubscribeOk(m.content).Ok? ==>
      var id := ReadSubscribeOk(m.content).value.requestId;
      id in s.requestIds ==> s.tracks[s.requestIds[id]].inbound
  }

  ghost predicate SameRoutes(s: Session, r: Session) {
    && r.requestIds == s.requestIds && |r.tracks| == |s.tracks| && r.nextRequestId == s.nextRequestId
    && r.started == s.started && r.tokenSent == s.tokenSent
    && forall i :: 0 <= i < |s.tracks| ==> r.tracks[i] == s.tracks[i].(alias := r.tracks[i].alias)
  }

  ghost predicate Grown(s: Session, r: Session) {
    && s.nextTrackAlias <= r.nextTrackAlias
    && forall a :: a in s.outboundAliases ==> a in r.outboundAliases && r.outboundAliases[a] == s.outboundAliases[a]
  }

  lemma NextAliasBounded(s: Session, i: nat)
    requires AliasesBounded(s) && i < |s.tracks| && !s.tracks[i].inbound && s.nextTrackAlias + 1 < TWO64
    ensures AliasesBounded(WithNextAlias(s, i)) && SameRoutes(s, WithNextAlias(s, i))
    ensures Grown(s, WithNextAlias(s, i)) && WithNextAlias(s, i).nextTrackAlias == s.nextTrackAlias + 1
  {
    var r := WithNextAlias(s, i);
    assert forall j :: 0 <= j < |s.tracks| ==> r.tracks[j].inbound == s.tracks[j].inbound;
  }

  /** The track served leads back by its new alias; the others keep theirs, which the fresh alias cannot overwrite. */
  lemma NextAliasLeadsBack(s: Session, i: nat, j: nat)
    requires AliasesAgree(s) && i < |s.tracks| && j < |s.tracks| && !s.tracks[j].inbound
    ensures LeadsBack(WithNextAlias(s, i), j)
  {
    assert LeadsBack(s, j);
  }

  lemma ServedAgrees(s: Session, ns: seq<Str>)
    requires Routed(s) && AliasesAgree(s) && s.nextTrackAlias + 1 < TWO64
    ensures var r := Served(s, ns);
      AliasesAgree(r) && SameRoutes(s, r) && Grown(s, r) && r.nextTrackAlias <= s.nextTrackAlias + 1
  {
    hide MatchFrom, WithNextAlias, AliasesBounded, LeadsBack;
    var i := MatchFrom(s.tracks, ns, 0);
    if i < |s.tracks| {
      NextAliasBounded(s, i);
      var r := WithNextAlias(s, i);
      forall j | 0 <= j < |r.tracks| && !r.tracks[j].inbound
        ensures LeadsBack(r, j)
      {
        NextAliasLeadsBack(s, i, j);
      }
    }
  }

  /**
   * One SUBSCRIBE_OK keeps the aliases consistent exactly when it answers a subscription, or happens to carry an
   * alias that already leads to the track it names (or 0, which means none).
   */
  lemma {:induction false} AnsweredExactly(s: Session, id: u64, alias: u64)
    requires Routed(s) && AliasesAgree(s)
    ensures SameRoutes(s, Answered(s, id, alias)) && Grown(s, Answered(s, id, alias))
    ensures AliasesAgree(Answered(s, id, alias)) <==>
            (id in s.requestIds && !s.tracks[s.requestIds[id]].inbound && alias != 0 ==>
               alias in s.outboundAliases && s.outboundAliases[alias] == s.requestIds[id])
  {
    var r := Answered(s, id, alias);
    if id in s.requestIds {
      var i := s.requestIds[id];
      assert r.tracks[i].alias == alias;
      forall j | 0 <= j < |s.tracks| && j != i && !s.tracks[j].inbound
        ensures LeadsBack(r, j)
      {
        assert LeadsBack(s, j);
      }
    }
  }

  lemma AnsweredNext(s: Session, id: u64, alias: u64)
    requires Routed(s)
    ensures Answered(s, id, alias).nextTrackAlias == s.nextTrackAlias
  {
  }

  lemma HandledAgrees(s: Session, m: Message)
    requires Routed(s) && AliasesAgree(s) && AnswersSubscription(s, m) && s.nextTrackAlias + 1 < TWO64
    ensures var r := Handled(s, m);
      AliasesAgree(r) && SameRoutes(s, r) && Grown(s, r) && r.nextTrackAlias <= s.nextTrackAlias + 1
  {
    hide ReadSubscribeOk, ReadSubscribe, Served, Answered, AliasesAgree;
    if m.msgType == SUBSCRIBE_OK && ReadSubscribeOk(m.content).Ok? {
      var ok := ReadSubscribeOk(m.content).value;
      AnsweredExactly(s, ok.requestId, ok.trackAlias);
      AnsweredNext(s, ok.requestId, ok.trackAlias);
    } else if m.msgType == SUBSCRIBE && ReadSubscribe(m.content).Ok? {
      ServedAgrees(s, ReadSubscribe(m.content).value.trackNamespace);
    }
  }

  function RepliesToAll(s: Session, ms: seq<Message>): seq<Control>
    requires Routed(s)
  {
    if ms == [] then []
    else
      RepliesToAll(s, ms[..|ms| - 1]) + Replies(HandledAll(s, ms[..|ms| - 1]), ms[|ms| - 1])
  }

  /** The aliases our SUBSCRIBE_OK replies hand out. */
  function Granted(cs: seq<Control>): seq<u64> {
    if cs == [] then []
    else
      var last := cs[|cs| - 1];
      Granted(cs[..|cs| - 1]) + if last.Granting? then [last.ok.trackAlias] else []
  }

  lemma {:induction false} GrantedAppend(a: seq<Control>, b: seq<Control>)
    ensures Granted(a + b) == Granted(a) + Granted(b)
  {
    if b == [] {
      assert a + b == a;
    } else {
      var all := a + b;
      assert all[..|all| - 1] == a + b[..|b| - 1];
      GrantedAppend(a, b[..|b| - 1]);
    }
  }

  /**
   * Over any messages from a peer that answers only real subscriptions, the maps stay consistent, no alias ever
   * changes its track, and the routing of request ids is untouched.
   */
  lemma {:induction false} AliasesStayConsistent(s: Session, ms: seq<Message>)
    requires Routed(s) && AliasesAgree(s) && s.nextTrackAlias + |ms| < TWO64
    requires forall m :: m in ms ==> AnswersSubscription(s, m)
    ensures var r := HandledAll(s, ms);
      AliasesAgree(r) && SameRoutes(s, r) && Grown(s, r) && r.nextTrackAlias <= s.nextTrackAlias + |ms|
  {
    hide AliasesAgree, Handled, ReadSubscribeOk;
    if ms != [] {
      var init, last := ms[..|ms| - 1], ms[|ms| - 1];
      AliasesStayConsistent(s, init);
      assert last in ms;
      HandledAgrees(HandledAll(s, init), last);
    }
  }

  lemma GrantsNext(s: Session, m: Message)
    requires Routed(s) && s.nextTrackAlias + 1 < TWO64
    ensures var r, g := Handled(s, m), Granted(Replies(s, m));
      (g == [] && r.nextTrackAlias == s.nextTrackAlias)
      || (g == [s.nextTrackAlias] && r.nextTrackAlias == s.nextTrackAlias + 1)
  {
    hide ReadSubscribeOk, ReadSubscribe, ReadAnnounce, MatchFrom;
    var cs := Replies(s, m);
    assert cs != [] ==> cs[..|cs| - 1] == [];
  }

  lemma NothingGranted()
    ensures Granted([]) == []
  {
  }

  /** Aliases handed out are consecutive, so each is fresh whatever the peer sends. */
  lemma {:induction false} AliasesAreFresh(s: Session, ms: seq<Message>)
    requires Routed(s) && s.nextTrackAlias + |ms| < TWO64
    ensures var g, r := Granted(RepliesToAll(s, ms)), HandledAll(s, ms);
      && r.nextTrackAlias == s.nextTrackAlias + |g| && |g| <= |ms|
      && forall k :: 0 <= k < |g| ==> g[k] == s.nextTrackAlias + k
  {
    hide Handled, Replies, Granted;
    if ms == [] {
      NothingGranted();
    } else {
      var init, last := ms[..|ms| - 1], ms[|ms| - 1];
      AliasesAreFresh(s, init);
      var now := HandledAll(s, init);
      GrantsNext(now, last);
      GrantedAppend(RepliesToAll(s, init), Replies(now, last));
    }
  }

  // ---- Incoming datagrams -------------------------------------------------------------

  /** `m` is a SUBSCRIBE_OK that gives alias `a` to track `i`. */
  ghost predicate Names(s: Session, m: Message, i: int, a: u64) {
    && m.msgType == SUBSCRIBE_OK && ReadSubscribeOk(m.content).Ok?
    && var ok := ReadSubscribeOk(m.content).value;
      ok.trackAlias == a && ok.requestId in s.requestIds && s.requestIds[ok.requestId] == i
  }

  /** The peer uses no alias for two of our tracks. */
  ghost predicate OneTrackPerAlias(s: Session, ms: seq<Message>) {
    forall m, m', i, j, a :: m in ms && m' in ms && Names(s, m, i, a) && Names(s, m', j, a) ==> i == j
  }

  lemma {:induction false} MessagesOnlySetAliases(s: Session, ms: seq<Message>)
    requires Routed(s)
    ensures SameRoutes(s, HandledAll(s, ms))
  {
    hide ReadSubscribeOk, ReadSubscribe, MatchFrom;
    if ms != [] {
      MessagesOnlySetAliases(s, ms[..|ms| - 1]);
    }
  }

  /** The track and alias a message names, if it is a SUBSCRIBE_OK that answers a request of ours. */
  ghost function NamedBy(s: Session, m: Message): (r: Option<(int, u64)>)
    ensures forall i: int, a: u64 :: Names(s, m, i, a) <==> r == Some((i, a))
  {
    if m.msgType == SUBSCRIBE_OK && ReadSubscribeOk(m.content).Ok?
       && ReadSubscribeOk(m.content).value.requestId in s.requestIds then
      var ok := ReadSubscribeOk(m.content).value;
      Some((s.requestIds[ok.requestId], ok.trackAlias))
    else None
  }

  /** A SUBSCRIBE_OK gives its alias to the track it answers, and the alias to that track; nothing else changes. */
  lemma OkGivesAlias(s: Session, m: Message, i: nat, a: u64)
    requires Routed(s) && Names(s, m, i, a)
    ensures var r := Handled(s, m);
      && i < |s.tracks| && r.tracks == s.tracks[i := s.tracks[i].(alias := a)]
      && r.inboundAliases == s.inboundAliases[a := i]
      && r == s.(tracks := r.tracks, inboundAliases := r.inboundAliases)
  {
    hide ReadSubscribeOk, ReadSubscribe;
  }

  /** One that answers nothing of ours changes nothing. */
  lemma OkForNobody(s: Session, m: Message)
    requires Routed(s) && m.msgType == SUBSCRIBE_OK && NamedBy(s, m) == None
    ensures Handled(s, m) == s && Replies(s, m) == []
  {
    hide ReadSubscribeOk, ReadSubscribe;
  }

  /** The last alias a SUBSCRIBE_OK gave the track. */
  ghost function LastAlias(s: Session, ms: seq<Message>, i: int): Option<u64> {
    if ms == [] then None
    else
      var named := NamedBy(s, ms[|ms| - 1]);
      if named.Some? && named.value.0 == i then Some(named.value.1) else LastAlias(s, ms[..|ms| - 1], i)
  }

  /** The track the last SUBSCRIBE_OK with the alias answered. */
  ghost function LastTrack(s: Session, ms: seq<Message>, a: u64): Option<int> {
    if ms == [] then None
    else
      var named := NamedBy(s, ms[|ms| - 1]);
      if named.Some? && named.value.1 == a then Some(named.value.0) else LastTrack(s, ms[..|ms| - 1], a)
  }

  /** What one message does to an inbound track's alias and to an alias's entry. */
  lemma OneMessage(s: Session, m: Message, i: nat, a: u64)
    requires Routed(s) && i < |s.tracks| && s.tracks[i].inbound
    ensures var r, named := Handled(s, m), NamedBy(s, m);
      && |r.tracks| == |s.tracks|
      && r.tracks[i].alias == (if named.Some? && named.value.0 == i then named.value.1 else s.tracks[i].alias)
      && (a in r.inboundAliases <==> a in s.inboundAliases || (named.Some? && named.value.1 == a))
      && (a in r.inboundAliases ==>
            r.inboundAliases[a] == if named.Some? && named.value.1 == a then named.value.0 else s.inboundAliases[a])
  {
    hide ReadSubscribeOk, ReadSubscribe, MatchFrom;
    var named := NamedBy(s, m);
    if named.Some? {
      assert Names(s, m, named.value.0, named.value.1);
      OkGivesAlias(s, m, named.value.0, named.value.1);
    } else if m.msgType == SUBSCRIBE_OK {
      OkForNobody(s, m);
    }
  }

  lemma SameNames(s: Session, t: Session, m: Message)
    requires t.requestIds == s.requestIds
    ensures NamedBy(t, m) == NamedBy(s, m)
  {
    hide ReadSubscribeOk;
  }

  /**
   * Over any messages at all, an inbound track has the alias the last SUBSCRIBE_OK gave it, and an alias leads to the
   * track the last SUBSCRIBE_OK with it answered.
   */
  lemma {:induction false} LastAnswerCounts(s: Session, ms: seq<Message>, i: nat, a: u64)
    requires Routed(s) && i < |s.tracks| && s.tracks[i].inbound
    ensures var r := HandledAll(s, ms);
      && |r.tracks| == |s.tracks|
      && r.tracks[i].alias == (match LastAlias(s, ms, i) case None => s.tracks[i].alias case Some(b) => b)
      && (a in r.inboundAliases <==> a in s.inboundAliases || LastTrack(s, ms, a).Some?)
      && (a in r.inboundAliases ==>
            r.inboundAliases[a] == match LastTrack(s, ms, a) case None => s.inboundAliases[a] case Some(k) => k)
  {
    hide Handled, NamedBy;
    if ms != [] {
      var init, m := ms[..|ms| - 1], ms[|ms| - 1];
      LastAnswerCounts(s, init, i, a);
      MessagesOnlySetAliases(s, init);
      var t := HandledAll(s, init);
      OneMessage(t, m, i, a);
      SameNames(s, t, m);
    }
  }

  lemma OnePerAliasBefore(s: Session, init: seq<Message>, last: Message)
    requires OneTrackPerAlias(s, init + [last])
    ensures OneTrackPerAlias(s, init)
  {
    hide Names;
    assert forall m :: m in init ==> m in init + [last];
  }

  lemma {:induction false} LastTrackOfMany(s: Session, ms: seq<Message>, m: Message, i: int, a: u64)
    requires m in ms && Names(s, m, i, a) && OneTrackPerAlias(s, ms)
    ensures LastTrack(s, ms, a) == Some(i)
  {
    hide Names;
    var init, last := ms[..|ms| - 1], ms[|ms| - 1];
    assert ms == init + [last];
    var named := NamedBy(s, last);
    if named.Some? && named.value.1 == a {
      assert last in ms && Names(s, last, named.value.0, a);
    } else {
      assert m != last;
      OnePerAliasBefore(s, init, last);
      LastTrackOfMany(s, init, m, i, a);
    }
  }

  /**
   * If the peer uses no alias for two tracks, every subscription it answers gets its datagrams: the alias it answered
   * with, first or later, is dispatched to that track.
   */
  lemma DatagramsReachTheirTracks(s: Session, ms: seq<Message>, m: Message, i: nat, a: u64)
    requires Routed(s) && i < |s.tracks| && s.tracks[i].inbound
    requires OneTrackPerAlias(s, ms) && m in ms && Names(s, m, i, a)
    ensures a in HandledAll(s, ms).inboundAliases && HandledAll(s, ms).inboundAliases[a] == i
  {
    hide Names, OneTrackPerAlias, HandledAll, LastTrack;
    LastAnswerCounts(s, ms, i, a);
    LastTrackOfMany(s, ms, m, i, a);
  }

  // ---- Incoming subscriptions and announcements ----------------------------------------------

  /** The first track announced under the namespace. */
  ghost predicate FirstUnder(s: Session, ns: seq<Str>, i: nat) {
    && i < |s.tracks| && !s.tracks[i].inbound && s.tracks[i].trackNamespace == ns
    && forall j :: 0 <= j < i ==> s.tracks[j].inbound || s.tracks[j].trackNamespace != ns
  }

  lemma {:induction false} MatchIsFirst(tracks: seq<Track>, ns: seq<Str>, from: nat, i: nat)
    requires from <= i <= |tracks|
    requires forall j :: from <= j < i ==> tracks[j].inbound || tracks[j].trackNamespace != ns
    requires i < |tracks| ==> !tracks[i].inbound && tracks[i].trackNamespace == ns
    ensures MatchFrom(tracks, ns, from) == i
    decreases i - from
  {
    if from < i {
      MatchIsFirst(tracks, ns, from + 1, i);
    }
  }

  /** A SUBSCRIBE gives the next alias to the first track under its namespace and is answered with its own id. */
  lemma SubscribeGetsAlias(s: Session, m: Message, i: nat)
    requires Routed(s) && m.msgType == SUBSCRIBE && ReadSubscribe(m.content).Ok?
    requires FirstUnder(s, ReadSubscribe(m.content).value.trackNamespace, i) && s.nextTrackAlias + 1 < TWO64
    ensures var r, a := Handled(s, m), s.nextTrackAlias;
      && r.tracks == s.tracks[i := s.tracks[i].(alias := a)] && r.nextTrackAlias == a + 1
      && r.outboundAliases == s.outboundAliases[a := i]
      && r == s.(tracks := r.tracks, nextTrackAlias := r.nextTrackAlias, outboundAliases := r.outboundAliases)
    ensures Replies(s, m) == [Granting(SubscribeOk(
                                         requestId := ReadSubscribe(m.content).value.requestId,
                                         trackAlias := s.nextTrackAlias, expiresMs := 0, groupOrder := 0,
                                         contentExists := false, largestGroupId := 0, largestObjectId := 0))]
  {
    hide ReadSubscribe, ReadSubscribeOk, MatchFrom;
    MatchIsFirst(s.tracks, ReadSubscribe(m.content).value.trackNamespace, 0, i);
  }

  /** A SUBSCRIBE for a namespace nothing is announced under is ignored. */
  lemma SubscribeForNobody(s: Session, m: Message)
    requires Routed(s) && m.msgType == SUBSCRIBE && ReadSubscribe(m.content).Ok?
    requires var ns := ReadSubscribe(m.content).value.trackNamespace;
      forall j :: 0 <= j < |s.tracks| ==> s.tracks[j].inbound || s.tracks[j].trackNamespace != ns
    ensures Handled(s, m) == s && Replies(s, m) == []
  {
    hide ReadSubscribe, ReadSubscribeOk, MatchFrom;
    MatchIsFirst(s.tracks, ReadSubscribe(m.content).value.trackNamespace, 0, |s.tracks|);
  }

  /** An ANNOUNCE or SUBSCRIBE_ANNOUNCES is acknowledged with its own id and changes nothing. */
  lemma AnnouncementsAcknowledged(s: Session, id: u64, ns: seq<Str>)
    requires Routed(s) && id < TWO62 && |ns| < TWO62 && forall part :: part in ns ==> |part| <= MAX_LEN
    ensures var m := Message(ANNOUNCE, AnnounceContent(id, ns)); Handled(s, m) == s && Replies(s, m) == [AnnounceOk(id)]
    ensures var m := Message(SUBSCRIBE_ANNOUNCES, AnnounceContent(id, ns));
      Handled(s, m) == s && Replies(s, m) == [SubscribeAnnouncesOk(id)]
  {
    hide ReadAnnounce, AnnounceContent, ReadSubscribe, ReadSubscribeOk;
    AnnounceRoundTrip(id, ns);
  }

  /** Other messages, and those that do not parse, do nothing. */
  lemma OthersIgnored(s: Session, m: Message)
    requires Routed(s)
    requires m.msgType == SUBSCRIBE_OK ==> !ReadSubscribeOk(m.content).Ok?
    requires m.msgType == SUBSCRIBE ==> !ReadSubscribe(m.content).Ok?
    requires m.msgType == ANNOUNCE || m.msgType == SUBSCRIBE_ANNOUNCES ==> !ReadAnnounce(m.content).Ok?
    ensures Handled(s, m) == s && Replies(s, m) == []
  {
    hide ReadSubscribe, ReadSubscribeOk, ReadAnnounce;
  }

  // ---- Reconnecting ----------------------------------------------------------------

  /** A reset keeps what the host configured and forgets everything else. */
  lemma ResetForgets(s: Session)
    ensures var r := AfterReset(s);
      && IsReset(r) && |r.tracks| == |s.tracks|
      && r.nextRequestId == 0 && r.nextTrackAlias == 1 && !r.started && !r.tokenSent
      && r.requestIds == r.inboundAliases == r.outboundAliases == map[]
      && forall i :: 0 <= i < |s.tracks| ==>
                       r.tracks[i] == Track(s.tracks[i].inbound, s.tracks[i].trackNamespace, s.tracks[i].trackName,
                                            alias := 0, requestId := 0, nextObjectId := 0, nextGroupId := 0)
  {
    assert ClearedTracks(ClearedTracks(s.tracks)) == ClearedTracks(s.tracks);
  }

  lemma StartedRoutes(s: Session, jwt: Str)
    requires IsReset(s) && 2 * |s.tracks| < TWO64
    ensures var r := AfterStart(s, jwt);
      Routed(r) && AliasesAgree(r) && r.nextTrackAlias == 1 && AfterReset(r) == s
  {
    hide Select, Order, RequestedAll;
    var order := Order(s.tracks);
    IdsAreABijection(s, jwt);
    RequestedForm(s.(started := true), order, jwt, |order|);
    var r := AfterStart(s, jwt);
    forall id | id in r.requestIds
      ensures r.requestIds[id] < |r.tracks|
    {
      assert id == 2 * (id / 2);
    }
    assert ClearedTracks(r.tracks) == s.tracks by {
      forall i | 0 <= i < |s.tracks|
        ensures Cleared(r.tracks[i]) == s.tracks[i]
      {
        assert r.tracks[i] == s.tracks[i].(requestId := r.tracks[i].requestId);
        assert s.tracks[i] == Cleared(s.tracks[i]);
      }
    }
  }

  /** From the first request to the end of a session the aliases stay consistent, whatever else the peer sends. */
  lemma {:induction false} SessionAliases(s: Session, jwt: Str, ms: seq<Message>)
    requires IsReset(s) && 2 * |s.tracks| < TWO64 && |ms| + 1 < TWO64
    requires Routed(AfterStart(s, jwt)) && forall m :: m in ms ==> AnswersSubscription(AfterStart(s, jwt), m)
    ensures AliasesAgree(HandledAll(AfterStart(s, jwt), ms))
  {
    hide AliasesAgree, AfterStart, AnswersSubscription, HandledAll;
    StartedRoutes(s, jwt);
    AliasesStayConsistent(AfterStart(s, jwt), ms);
  }

  /**
   * Whatever the peer sent, resetting brings back the state the session started from, so a reconnect makes the
   * same requests with the same ids again.
   */
  lemma ReconnectStartsOver(s: Session, jwt: Str, ms: seq<Message>)
    requires IsReset(s) && 2 * |s.tracks| < TWO64
    ensures Routed(AfterStart(s, jwt)) && AfterReset(HandledAll(AfterStart(s, jwt), ms)) == s
  {
    hide AfterStart, HandledAll;
    StartedRoutes(s, jwt);
    var a := AfterStart(s, jwt);
    MessagesOnlySetAliases(a, ms);
    var r := HandledAll(a, ms);
    assert ClearedTracks(r.tracks) == ClearedTracks(a.tracks);
  }
}
