/** Requests, replies and the id and alias maps of the session manager. */
module Orchestration {
  import opened Bytes
  import opened Varint
  import opened Wire
  import opened Framing
  import opened Messages

  datatype Track = Track(inbound: bool, trackNamespace: seq<Str>, trackName: Str,
                         alias: u64, requestId: u64, nextObjectId: u64, nextGroupId: u64)

  /** Track handles are indices into `tracks`. */
  datatype Session = Session(
    tracks: seq<Track>, nextRequestId: u64, nextTrackAlias: u64,
    requestIds: map<u64, nat>, inboundAliases: map<u64, nat>, outboundAliases: map<u64, nat>,
    started: bool, tokenSent: bool)

  /** A control message we send. */
  datatype Control =
    | Subscribing(config: SubscribeConfig)
    | Announcing(requestId: u64, trackNamespace: seq<Str>)
    | Granting(ok: SubscribeOk)
    | AnnounceOk(requestId: u64)
    | SubscribeAnnouncesOk(requestId: u64)

  ghost predicate Encodes(c: Control, bytes: seq<byte>) {
    match c
    case Subscribing(config) => exists content :: IsSubscribe(config, content, bytes)
    case Announcing(id, ns) => bytes == Frame(Message(ANNOUNCE, AnnounceContent(id, ns)))
    case Granting(ok) => exists content :: IsSubscribeOk(ok, content, bytes)
    case AnnounceOk(id) => bytes == Frame(Message(ANNOUNCE_OK, EncodeVarint(id)))
    case SubscribeAnnouncesOk(id) => bytes == Frame(Message(SUBSCRIBE_ANNOUNCES_OK, EncodeVarint(id)))
  }

  ghost predicate AllEncode(cs: seq<Control>, sent: seq<seq<byte>>) {
    |cs| == |sent| && forall i :: 0 <= i < |cs| ==> Encodes(cs[i], sent[i])
  }

  /** Every request id leads to a track. */
  predicate Routed(s: Session) {
    forall id :: id in s.requestIds ==> s.requestIds[id] < |s.tracks|
  }

  // ---- Requests -----------------------------------------------------------------

  /** The tracks of one direction among the first `n`, in order. */
  function Select(tracks: seq<Track>, inbound: bool, n: nat): (sel: seq<nat>)
    requires n <= |tracks|
    ensures |sel| <= n && forall k :: 0 <= k < |sel| ==> sel[k] < n && tracks[sel[k]].inbound == inbound
  {
    if n == 0 then []
    else
      var rest := Select(tracks, inbound, n - 1);
      if tracks[n - 1].inbound == inbound then rest + [n - 1] else rest
  }

  /** Requests go out for the inbound tracks first, then for the outbound ones. */
  function Order(tracks: seq<Track>): (order: seq<nat>)
    ensures forall k :: 0 <= k < |order| ==> order[k] < |tracks|
  {
    Select(tracks, true, |tracks|) + Select(tracks, false, |tracks|)
  }

  /** forward = 1, ascending groups, latest-group filter, priority 128. */
  function SubscribeFor(t: Track, id: u64, token: Str, extra: seq<KvpParam>): SubscribeConfig {
    SubscribeConfig(id, t.trackNamespace, t.trackName, 128, 1, 1, FILTER_LATEST_GROUP, token, extra)
  }

  /** The message for track `i` as things stand; `extra` is what the host adds. */
  function NextRequest(s: Session, i: nat, jwt: Str, extra: seq<KvpParam>): Control
    requires i < |s.tracks|
  {
    var t := s.tracks[i];
    if t.inbound then Subscribing(SubscribeFor(t, s.nextRequestId, if s.tokenSent then [] else jwt, extra))
    else Announcing(s.nextRequestId, t.trackNamespace)
  }

  function Requested(s: Session, i: nat, jwt: Str): (r: Session)
    requires i < |s.tracks|
    ensures |r.tracks| == |s.tracks|
  {
    var id := s.nextRequestId;
    s.(tracks := s.tracks[i := s.tracks[i].(requestId := id)], requestIds := s.requestIds[id := i],
       nextRequestId := (id + 2) % TWO64, tokenSent := s.tokenSent || (s.tracks[i].inbound && jwt != []))
  }

  ghost predicate InOrder(s: Session, order: seq<nat>) {
    forall k :: 0 <= k < |order| ==> order[k] < |s.tracks|
  }

  /** After the first `k` requests. */
  ghost function RequestedAll(s: Session, order: seq<nat>, jwt: Str, k: nat): (r: Session)
    requires k <= |order| && InOrder(s, order)
    ensures |r.tracks| == |s.tracks|
  {
    if k == 0 then s else Requested(RequestedAll(s, order, jwt, k - 1), order[k - 1], jwt)
  }

  ghost function SentAll(s: Session, order: seq<nat>, jwt: Str, host: nat -> seq<KvpParam>, k: nat): (cs: seq<Control>)
    requires k <= |order| && InOrder(s, order)
    ensures |cs| == k
  {
    if k == 0 then []
    else
      SentAll(s, order, jwt, host, k - 1)
      + [NextRequest(RequestedAll(s, order, jwt, k - 1), order[k - 1], jwt, host(order[k - 1]))]
  }

  /** start_orchestration. */
  ghost function AfterStart(s: Session, jwt: Str): Session {
    RequestedAll(s.(started := true), Order(s.tracks), jwt, |Order(s.tracks)|)
  }

  ghost function Requests(s: Session, jwt: Str, host: nat -> seq<KvpParam>): (cs: seq<Control>)
    ensures |cs| == |Order(s.tracks)|
  {
    SentAll(s.(started := true), Order(s.tracks), jwt, host, |Order(s.tracks)|)
  }

  // ---- Replies ------------------------------------------------------------------

  /** The first outbound track announced under `ns`, or the number of tracks. */
  function MatchFrom(tracks: seq<Track>, ns: seq<Str>, i: nat): (m: nat)
    requires i <= |tracks|
    ensures i <= m <= |tracks|
    ensures m < |tracks| ==> !tracks[m].inbound && tracks[m].trackNamespace == ns
    decreases |tracks| - i
  {
    if i == |tracks| || (!tracks[i].inbound && tracks[i].trackNamespace == ns) then i
    else MatchFrom(tracks, ns, i + 1)
  }

  function WithAlias(tracks: seq<Track>, i: nat, alias: u64): seq<Track>
    requires i < |tracks|
  {
    tracks[i := tracks[i].(alias := alias)]
  }

  /** SUBSCRIBE_OK: the peer's alias goes to whatever track the request id names. */
  function Answered(s: Session, id: u64, alias: u64): (r: Session)
    requires Routed(s)
    ensures Routed(r)
  {
    if id !in s.requestIds then s
    else
      var i := s.requestIds[id];
      s.(tracks := WithAlias(s.tracks, i, alias), inboundAliases := s.inboundAliases[alias := i])
  }

  /** The next alias, given to track `i`. */
  function WithNextAlias(s: Session, i: nat): Session
    requires i < |s.tracks|
  {
    var alias := s.nextTrackAlias;
    s.(tracks := WithAlias(s.tracks, i, alias), outboundAliases := s.outboundAliases[alias := i],
       nextTrackAlias := (alias + 1) % TWO64)
  }

  /** SUBSCRIBE: the first outbound track with that namespace is served. */
  function Served(s: Session, ns: seq<Str>): (r: Session)
    requires Routed(s)
    ensures Routed(r)
  {
    var i := MatchFrom(s.tracks, ns, 0);
    if i == |s.tracks| then s else WithNextAlias(s, i)
  }

  function Grants(s: Session, id: u64, ns: seq<Str>): seq<Control> {
    if MatchFrom(s.tracks, ns, 0) == |s.tracks| then []
    else [Granting(SubscribeOk(id, s.nextTrackAlias, 0, 0, false, 0, 0))]
  }

  /** Only SUBSCRIBE_OK and SUBSCRIBE touch the maps; what does not parse is dropped. */
  function Handled(s: Session, m: Message): (r: Session)
    requires Routed(s)
    ensures Routed(r)
  {
    if m.msgType == SUBSCRIBE_OK then
      var p := ReadSubscribeOk(m.content);
      if p.Ok? then Answered(s, p.value.requestId, p.value.trackAlias) else s
    else if m.msgType == SUBSCRIBE then
      var p := ReadSubscribe(m.content);
      if p.Ok? then Served(s, p.value.trackNamespace) else s
    else s
  }

  /** Messages dispatched one after the other. */
  function HandledAll(s: Session, ms: seq<Message>): (r: Session)
    requires Routed(s)
    ensures Routed(r)
  {
    if ms == [] then s else Handled(HandledAll(s, ms[..|ms| - 1]), ms[|ms| - 1])
  }

  function Replies(s: Session, m: Message): seq<Control> {
    if m.msgType == SUBSCRIBE then
      var p := ReadSubscribe(m.content);
      if p.Ok? then Grants(s, p.value.requestId, p.value.trackNamespace) else []
    else if m.msgType == ANNOUNCE then
      var p := ReadAnnounce(m.content);
      if p.Ok? then [AnnounceOk(p.value.requestId)] else []
    else if m.msgType == SUBSCRIBE_ANNOUNCES then
      var p := ReadAnnounce(m.content);
      if p.Ok? then [SubscribeAnnouncesOk(p.value.requestId)] else []
    else []
  }

  function Cleared(t: Track): Track {
    t.(alias := 0, requestId := 0, nextObjectId := 0, nextGroupId := 0)
  }

  function ClearedTracks(tracks: seq<Track>): (r: seq<Track>)
    ensures |r| == |tracks| && forall i :: 0 <= i < |r| ==> r[i] == Cleared(tracks[i])
  {
    seq(|tracks|, i requires 0 <= i < |tracks| => Cleared(tracks[i]))
  }

  function AfterReset(s: Session): Session {
    Session(ClearedTracks(s.tracks), 0, 1, map[], map[], map[], false, false)
  }

  // ---- The order of requests ---------------------------------------------------------

  lemma {:induction false} SelectSizes(tracks: seq<Track>, n: nat)
    requires n <= |tracks|
    ensures |Select(tracks, true, n)| + |Select(tracks, false, n)| == n
  {
    if n > 0 {
      SelectSizes(tracks, n - 1);
    }
  }

  lemma OrderSize(tracks: seq<Track>)
    ensures |Order(tracks)| == |tracks|
  {
    SelectSizes(tracks, |tracks|);
  }

  lemma StartForm(s: Session, jwt: Str, host: nat -> seq<KvpParam>)
    ensures var was, order := s.(started := true), Order(s.tracks);
      && |order| == |Select(s.tracks, true, |s.tracks|)| + |Select(s.tracks, false, |s.tracks|)|
      && AfterStart(s, jwt) == RequestedAll(was, order, jwt, |order|)
      && Requests(s, jwt, host) == SentAll(was, order, jwt, host, |order|)
  {
  }

  lemma NothingSelected(tracks: seq<Track>, inbound: bool)
    ensures Select(tracks, inbound, 0) == []
  {
  }

  /** Selecting from fewer tracks gives the start of the selection. */
  lemma {:induction false} SelectPrefix(tracks: seq<Track>, inbound: bool, m: nat, n: nat)
    requires m <= n <= |tracks|
    ensures Select(tracks, inbound, m) <= Select(tracks, inbound, n)
    decreases n
  {
    if m < n {
      SelectPrefix(tracks, inbound, m, n - 1);
    }
  }

  /** When the loop reaches a track of its direction, that track is the next in the order. */
  lemma NextSelected(tracks: seq<Track>, inbound: bool, i: nat)
    requires i < |tracks|
    ensures |Select(tracks, inbound, i + 1)|
            == |Select(tracks, inbound, i)| + if tracks[i].inbound == inbound then 1 else 0
    ensures var k := |Select(tracks, inbound, i)| + if inbound then 0 else |Select(tracks, true, |tracks|)|;
      tracks[i].inbound == inbound ==> k < |Order(tracks)| && Order(tracks)[k] == i
  {
    SelectPrefix(tracks, inbound, i + 1, |tracks|);
  }

  lemma NoneRequested(s: Session, order: seq<nat>, jwt: Str, host: nat -> seq<KvpParam>)
    requires InOrder(s, order)
    ensures RequestedAll(s, order, jwt, 0) == s && SentAll(s, order, jwt, host, 0) == []
  {
  }

  lemma AllStep(s: Session, order: seq<nat>, jwt: Str, host: nat -> seq<KvpParam>, k: nat)
    requires k < |order| && InOrder(s, order)
    ensures var r, i := RequestedAll(s, order, jwt, k), order[k];
      && RequestedAll(s, order, jwt, k + 1) == Requested(r, i, jwt)
      && SentAll(s, order, jwt, host, k + 1) == SentAll(s, order, jwt, host, k) + [NextRequest(r, i, jwt, host(i))]
  {
  }

  lemma {:induction false} SameDirection(s: Session, order: seq<nat>, jwt: Str, k: nat, i: nat)
    requires k <= |order| && InOrder(s, order) && i < |s.tracks|
    ensures RequestedAll(s, order, jwt, k).tracks[i].inbound == s.tracks[i].inbound
  {
    if k > 0 {
      SameDirection(s, order, jwt, k - 1, i);
    }
  }

  // ---- The code -------------------------------------------------------------------

  /** The session manager's protocol state. */
  class Signalling {
    var tracks: seq<Track>
    var jwt: Str
    var nextRequestId: u64
    var nextTrackAlias: u64
    var requestIds: map<u64, nat>
    var inboundAliases: map<u64, nat>
    var outboundAliases: map<u64, nat>
    var orchestrationStarted: bool
    var firstSubscribeSent: bool
    /** Everything handed to the transport, and what each message says. */
    var sent: seq<seq<byte>>
    ghost var controls: seq<Control>

    ghost function View(): Session
      reads this
    {
      Session(tracks, nextRequestId, nextTrackAlias, requestIds, inboundAliases, outboundAliases,
              orchestrationStarted, firstSubscribeSent)
    }

    ghost predicate Valid()
      reads this
    {
      Routed(View()) && AllEncode(controls, sent)
    }

    constructor (tracks: seq<Track>, jwt: Str)
      ensures Valid() && View() == Session(tracks, 0, 1, map[], map[], map[], false, false) && controls == []
    {
      this.tracks, this.jwt, nextRequestId, nextTrackAlias := tracks, jwt, 0, 1;
      requestIds, inboundAliases, outboundAliases := map[], map[], map[];
      orchestrationStarted, firstSubscribeSent, sent, controls := false, false, [], [];
    }

    method Send(bytes: seq<byte>, ghost c: Control)
      requires AllEncode(controls, sent) && Encodes(c, bytes)
      modifies this`sent, this`controls
      ensures AllEncode(controls, sent) && controls == old(controls) + [c]
    {
      hide Encodes;
      sent, controls := sent + [bytes], controls + [c];
    }

    method ResetMoqState()
      requires Valid()
      modifies this`tracks, this`nextRequestId, this`nextTrackAlias, this`requestIds, this`inboundAliases,
        this`outboundAliases, this`orchestrationStarted, this`firstSubscribeSent
      ensures Valid() && View() == AfterReset(old(View()))
    {
      hide Encodes, AllEncode;
      requestIds, inboundAliases, outboundAliases := map[], map[], map[];
      nextRequestId, nextTrackAlias, orchestrationStarted, firstSubscribeSent := 0, 1, false, false;
      for i := 0 to |tracks|
        modifies this`tracks
        invariant |tracks| == old(|tracks|)
        invariant forall j :: 0 <= j < i ==> tracks[j] == Cleared(old(tracks)[j])
        invariant forall j :: i <= j < |tracks| ==> tracks[j] == old(tracks)[j]
      {
        tracks := tracks[i := Cleared(tracks[i])];
      }
      assert tracks == ClearedTracks(old(tracks));
    }

    method BuildFor(config: SubscribeConfig) returns (bytes: seq<byte>)
      ensures Encodes(Subscribing(config), bytes)
    {
      bytes := BuildSubscribe(config);
    }

    method BuildAnnouncing(id: u64, ns: seq<Str>) returns (bytes: seq<byte>)
      ensures Encodes(Announcing(id, ns), bytes)
    {
      bytes := BuildAnnounce(id, ns);
    }

    method SendFor(t: Track, id: u64, token: Str, extra: seq<KvpParam>)
      requires AllEncode(controls, sent)
      modifies this`sent, this`controls
      ensures AllEncode(controls, sent)
      ensures controls == old(controls) + [if t.inbound then Subscribing(SubscribeFor(t, id, token, extra))
                                           else Announcing(id, t.trackNamespace)]
    {
      hide Encodes, AllEncode;
      if t.inbound {
        var bytes := BuildFor(SubscribeFor(t, id, token, extra));
        Send(bytes, Subscribing(SubscribeFor(t, id, token, extra)));
      } else {
        var bytes := BuildAnnouncing(id, t.trackNamespace);
        Send(bytes, Announcing(id, t.trackNamespace));
      }
    }

    /** One request: the id is recorded and the message sent. */
    method SendRequest(i: nat, extra: seq<KvpParam>)
      requires Valid() && i < |tracks|
      modifies this`tracks, this`requestIds, this`nextRequestId, this`firstSubscribeSent, this`sent, this`controls
      ensures Valid() && View() == Requested(old(View()), i, jwt)
      ensures controls == old(controls) + [NextRequest(old(View()), i, jwt, extra)]
    {
      hide Encodes, AllEncode;
      var t, id, token := tracks[i], nextRequestId, [];
      if t.inbound && !firstSubscribeSent && jwt != [] {
        token, firstSubscribeSent := jwt, true;
      }
      tracks := tracks[i := t.(requestId := id)];
      requestIds := requestIds[id := i];
      nextRequestId := (id + 2) % TWO64;
      SendFor(t, id, token, extra);
    }

    /** One of the two loops; `done` requests went out before it. */
    method RequestTracks(inbound: bool, host: nat -> seq<KvpParam>, ghost was: Session, ghost done: nat,
                         ghost start: seq<Control>)
      requires Valid() && done == if inbound then 0 else |Select(was.tracks, true, |was.tracks|)|
      requires done <= |Order(was.tracks)| && View() == RequestedAll(was, Order(was.tracks), jwt, done)
      requires controls == start + SentAll(was, Order(was.tracks), jwt, host, done)
      modifies this`tracks, this`requestIds, this`nextRequestId, this`firstSubscribeSent, this`sent, this`controls
      ensures Valid()
      ensures var k, order := done + |Select(was.tracks, inbound, |was.tracks|)|, Order(was.tracks);
        && k <= |order| && View() == RequestedAll(was, order, jwt, k)
        && controls == start + SentAll(was, order, jwt, host, k)
    {
      hide Encodes, AllEncode, Routed, Requested, NextRequest, RequestedAll, SentAll, Select, Order;
      ghost var order, k := Order(was.tracks), done;
      NothingSelected(was.tracks, inbound);
      for i := 0 to |tracks|
        invariant Valid() && |tracks| == |was.tracks| && k == done + |Select(was.tracks, inbound, i)| <= |order|
        invariant View() == RequestedAll(was, order, jwt, k)
        invariant controls == start + SentAll(was, order, jwt, host, k)
      {
        SameDirection(was, order, jwt, k, i);
        NextSelected(was.tracks, inbound, i);
        if tracks[i].inbound == inbound {
          AllStep(was, order, jwt, host, k);
          SendRequest(i, host(i));
          k := k + 1;
        }
      }
    }

    /** One SUBSCRIBE per inbound track, then one ANNOUNCE per outbound track. */
    method StartOrchestration(host: nat -> seq<KvpParam>)
      requires Valid()
      modifies this
      ensures Valid() && View() == AfterStart(old(View()), jwt) && jwt == old(jwt)
      ensures controls == old(controls) + Requests(old(View()), jwt, host)
    {
      hide Encodes, AllEncode, RequestedAll, SentAll, Select, Order, AfterStart, Requests;
      ghost var before := View();
      orchestrationStarted := true;
      ghost var was := View();
      StartForm(before, jwt, host);
      NoneRequested(was, Order(tracks), jwt, host);
      RequestTracks(true, host, was, 0, controls);
      RequestTracks(false, host, was, |Select(was.tracks, true, |was.tracks|)|, old(controls));
    }

    method OnSubscribeOk(id: u64, alias: u64)
      requires Valid()
      modifies this`tracks, this`inboundAliases
      ensures Valid() && View() == Answered(old(View()), id, alias)
    {
      hide Encodes, AllEncode;
      if id in requestIds {
        var i := requestIds[id];
        tracks := tracks[i := tracks[i].(alias := alias)];
        inboundAliases := inboundAliases[alias := i];
      }
    }

    method SendGrant(ok: SubscribeOk)
      requires AllEncode(controls, sent)
      modifies this`sent, this`controls
      ensures AllEncode(controls, sent) && controls == old(controls) + [Granting(ok)]
    {
      hide AllEncode;
      var bytes := BuildSubscribeOk(ok);
      Send(bytes, Granting(ok));
    }

    method OnSubscribe(id: u64, ns: seq<Str>)
      requires Valid()
      modifies this`tracks, this`outboundAliases, this`nextTrackAlias, this`sent, this`controls
      ensures Valid() && View() == Served(old(View()), ns)
      ensures controls == old(controls) + Grants(old(View()), id, ns)
    {
      hide Encodes, AllEncode;
      var i := 0;
      while i < |tracks| && !(!tracks[i].inbound && tracks[i].trackNamespace == ns)
        invariant i <= |tracks| && MatchFrom(tracks, ns, i) == MatchFrom(tracks, ns, 0)
      {
        i := i + 1;
      }
      if i < |tracks| {
        var alias := nextTrackAlias;
        nextTrackAlias := (alias + 1) % TWO64;
        tracks := tracks[i := tracks[i].(alias := alias)];
        outboundAliases := outboundAliases[alias := i];
        SendGrant(SubscribeOk(id, alias, 0, 0, false, 0, 0));
      }
    }

    /** ANNOUNCE_OK and SUBSCRIBE_ANNOUNCES_OK carry only the request id. */
    method Acknowledge(msgType: u64, id: u64, ghost c: Control)
      requires Valid()
      requires (msgType == ANNOUNCE_OK && c == AnnounceOk(id))
               || (msgType == SUBSCRIBE_ANNOUNCES_OK && c == SubscribeAnnouncesOk(id))
      modifies this`sent, this`controls
      ensures Valid() && controls == old(controls) + [c]
    {
      hide AllEncode;
      var bytes := BuildControlMessage(msgType, EncodeVarint(id));
      Send(bytes, c);
    }

    method HandleControlMessage(m: Message)
      requires Valid()
      modifies this
      ensures Valid() && View() == Handled(old(View()), m) && jwt == old(jwt)
      ensures controls == old(controls) + Replies(old(View()), m)
    {
      hide Answered, Served, Grants, Encodes, AllEncode, Routed, ReadSubscribe, ReadSubscribeOk, ReadAnnounce;
      if m.msgType == SUBSCRIBE_OK {
        var p := ParseSubscribeOk(m.content);
        if p.Ok? {
          OnSubscribeOk(p.value.requestId, p.value.trackAlias);
        }
      } else if m.msgType == SUBSCRIBE {
        var p := ParseSubscribe(m.content);
        if p.Ok? {
          OnSubscribe(p.value.requestId, p.value.trackNamespace);
        }
      } else if m.msgType == ANNOUNCE {
        var p := ParseAnnounce(m.content);
        if p.Ok? {
          Acknowledge(ANNOUNCE_OK, p.value.requestId, AnnounceOk(p.value.requestId));
        }
      } else if m.msgType == SUBSCRIBE_ANNOUNCES {
        var p := ParseAnnounce(m.content);
        if p.Ok? {
          Acknowledge(SUBSCRIBE_ANNOUNCES_OK, p.value.requestId, SubscribeAnnouncesOk(p.value.requestId));
        }
      }
    }

    /** The messages one drain of the control stream dispatches. */
    method HandleControlMessages(ms: seq<Message>)
      requires Valid()
      modifies this
      ensures Valid() && View() == HandledAll(old(View()), ms) && jwt == old(jwt)
    {
      hide Handled, Replies, Encodes, AllEncode;
      assert ms[..0] == [];
      for i := 0 to |ms|
        invariant Valid() && View() == HandledAll(old(View()), ms[..i]) && jwt == old(jwt)
      {
        assert ms[..i + 1][..i] == ms[..i];
        HandleControlMessage(ms[i]);
      }
      assert ms[..|ms|] == ms;
    }
  }
}
