/** The outbound PCM path: ring, framing and datagrams together. */
module PcmPipeline {
  import opened Bytes
  import opened Arith
  import opened Varint
  import opened Wire
  import opened Datagrams
  import opened RingBuffers

  // ---- PCM framing ----------------------------------------------------------------

  function SampleBytes(x: Sample): (b: seq<byte>)
    ensures |b| == 4
  {
    [x.b0, x.b1, x.b2, x.b3]
  }

  /** The bytes memcpy sees. */
  function ToBytes(pcm: seq<Sample>): (b: seq<byte>)
    ensures |b| == 4 * |pcm|
  {
    if pcm == [] then [] else ToBytes(pcm[..|pcm| - 1]) + SampleBytes(pcm[|pcm| - 1])
  }

  function FromBytes(data: seq<byte>): (pcm: seq<Sample>)
    requires |data| % 4 == 0
    ensures 4 * |pcm| == |data|
  {
    if data == [] then []
    else
      var n := |data| - 4;
      FromBytes(data[..n]) + [Sample(data[n], data[n + 1], data[n + 2], data[n + 3])]
  }

  lemma {:induction false} BytesRoundTrip(pcm: seq<Sample>)
    ensures FromBytes(ToBytes(pcm)) == pcm
  {
    if pcm != [] {
      var init, b := pcm[..|pcm| - 1], ToBytes(pcm);
      BytesRoundTrip(init);
      assert b[..|b| - 4] == ToBytes(init);
    }
  }

  lemma WholeFrames(n: nat, channels: nat)
    requires channels > 0 && n % (4 * channels) == 0
    ensures n % 4 == 0 && n / 4 / channels * channels == n / 4
  {
    var q := n / (4 * channels);
    assert n == 4 * (q * channels);
    ModMul(q * channels, 4);
    ModMul(q, channels);
  }

  /** pcm_unframe: nothing for no channels or bytes that are not whole frames. */
  function Unframed(data: seq<byte>, channels: nat): Option<seq<Sample>> {
    if channels == 0 || |data| % (4 * channels) != 0 then None
    else
      WholeFrames(|data|, channels);
      Some(FromBytes(data))
  }

  method PcmFrame(pcm: array<Sample>, frameCount: nat, channels: nat, output: array<byte>) returns (n: nat)
    requires frameCount * channels <= pcm.Length && 4 * (frameCount * channels) <= output.Length
    modifies output
    ensures n == 4 * (frameCount * channels)
    ensures Holds(output[..], old(output[..]), ToBytes(pcm[..frameCount * channels]))
  {
    ghost var samples, was := pcm[..frameCount * channels], output[..];
    var total := frameCount * channels;
    var bytes := ToBytes(pcm[..total]);
    n := 4 * total;
    forall i | 0 <= i < n {
      output[i] := bytes[i];
    }
    assert output[..] == bytes + was[n..];
    assert pcm[..total] == samples;
  }

  method PcmUnframe(data: seq<byte>, pcm: array<Sample>, channels: nat) returns (frames: nat)
    requires |data| <= 4 * pcm.Length
    modifies pcm
    ensures match Unframed(data, channels)
      case None => frames == 0 && pcm[..] == old(pcm[..])
      case Some(samples) =>
        frames * channels == |samples| && pcm[..|samples|] == samples && pcm[|samples|..] == old(pcm[|samples|..])
  {
    if channels == 0 {
      return 0;
    }
    if |data| % (4 * channels) != 0 {
      return 0;
    }
    WholeFrames(|data|, channels);
    var samples := FromBytes(data);
    forall i | 0 <= i < |samples| {
      pcm[i] := samples[i];
    }
    frames := |samples| / channels;
    assert |samples| == |data| / 4;
  }

  lemma FramesAreWhole(size: nat, frames: nat, channels: nat)
    requires channels > 0 && size == frames * channels
    ensures 4 * size % (4 * channels) == 0
  {
    assert 4 * size == frames * (4 * channels);
    ModMul(frames, 4 * channels);
  }

  /** Framing whole frames and unframing them gives the same floats. */
  lemma FrameUnframe(pcm: seq<Sample>, frames: nat, channels: nat)
    requires channels > 0 && |pcm| == frames * channels
    ensures Unframed(ToBytes(pcm), channels) == Some(pcm)
  {
    BytesRoundTrip(pcm);
    FramesAreWhole(|pcm|, frames, channels);
  }

  lemma {:induction false} BytesInverse(data: seq<byte>)
    requires |data| % 4 == 0
    ensures ToBytes(FromBytes(data)) == data
  {
    if data != [] {
      var n := |data| - 4;
      BytesInverse(data[..n]);
      var pcm := FromBytes(data);
      assert pcm[..|pcm| - 1] == FromBytes(data[..n]);
      assert data == data[..n] + [data[n], data[n + 1], data[n + 2], data[n + 3]];
    }
  }

  /** Sample `i` lies in its four bytes as it does in memory. */
  lemma {:induction false} BytesAt(pcm: seq<Sample>, i: nat)
    requires i < |pcm|
    ensures ToBytes(pcm)[4 * i..4 * i + 4] == [pcm[i].b0, pcm[i].b1, pcm[i].b2, pcm[i].b3]
  {
    var n := |pcm| - 1;
    var init := ToBytes(pcm[..n]);
    if i < n {
      BytesAt(pcm[..n], i);
      assert ToBytes(pcm)[4 * i..4 * i + 4] == init[4 * i..4 * i + 4];
    }
  }

  lemma ByteCount(n: nat, channels: nat)
    requires channels > 0
    ensures 4 * n % (4 * channels) == 0 <==> n % channels == 0
  {
    if n % channels == 0 {
      FramesAreWhole(n, n / channels, channels);
    } else if 4 * n % (4 * channels) == 0 {
      WholeFrames(4 * n, channels);
      ModMul(n / channels, channels);
    }
  }

  /** Unframing gives exactly the floats whose bytes these are, and only when they make up whole frames. */
  lemma UnframesExactly(data: seq<byte>, channels: nat, pcm: seq<Sample>)
    ensures Unframed(data, channels) == Some(pcm)
            <==> channels > 0 && |pcm| % channels == 0 && data == ToBytes(pcm)
  {
    hide ToBytes, FromBytes;
    if channels > 0 {
      ByteCount(|pcm|, channels);
      BytesRoundTrip(pcm);
      if Unframed(data, channels).Some? {
        WholeFrames(|data|, channels);
        BytesInverse(data);
      }
    }
  }

  // ---- The send loop ----------------------------------------------------------------

  function PacketOf(pcm: seq<Sample>, alias: u64, group: u64, id: u64): Datagram {
    Datagram(alias, group, id, 128, ToBytes(pcm))
  }

  /** A 64-bit counter's value after counting to `n`. */
  function Wrapped(n: nat): u64 {
    n % TWO64
  }

  /** What goes out for the queued floats `q`: one datagram per whole frame, ids counting up. */
  function Packets(q: seq<Sample>, size: nat, alias: u64, group: u64, id: nat): seq<seq<byte>>
    requires size > 0
    decreases |q|
  {
    if |q| < size then []
    else
      var d := PacketOf(q[..size], alias, group, Wrapped(id));
      [Header(d) + d.payload] + Packets(q[size..], size, alias, group, id + 1)
  }

  function Leftover(q: seq<Sample>, size: nat): (r: seq<Sample>)
    requires size > 0
    ensures |r| < size
    decreases |q|
  {
    if |q| < size then q else Leftover(q[size..], size)
  }

  /** n / c frames are available exactly when n floats hold k frames. */
  lemma EnoughFrames(n: nat, k: nat, c: nat)
    requires c > 0
    ensures n / c >= k <==> n >= k * c
  {
    OverAtLeast(n, k, c);
    OverIsQuotient(n, c);
    TimesIsProduct(k, c);
  }

  /** (ms * rate) / 1000 in 32-bit arithmetic. */
  function FramesIn(ms: u32, rate: u32): nat {
    ms * rate % 0x1_0000_0000 / 1000
  }

  /** Without a wrap it is the whole frames that last no longer than `ms` milliseconds. */
  lemma FramesInExactly(ms: u32, rate: u32)
    requires ms * rate < 0x1_0000_0000
    ensures 1000 * FramesIn(ms, rate) <= ms * rate < 1000 * (FramesIn(ms, rate) + 1)
  {
  }

  const RING_MS := 200

  lemma WrappedIs(n: u64)
    ensures Wrapped(n) == n
  {
  }

  lemma WrappedNext(n: nat)
    ensures Wrapped(Wrapped(n) + 1) == Wrapped(n + 1)
  {
  }

  /** A header does not depend on the payload. */
  lemma SameHeader(d: Datagram, e: Datagram)
    requires e == d.(payload := e.payload)
    ensures Header(d) == Header(e)
  {
  }

  /** `gone` are the first of the packets due for `start`, and `q` is what they leave. */
  ghost predicate Progress(start: seq<Sample>, q: seq<Sample>, gone: seq<seq<byte>>, size: nat, alias: u64, group: u64,
                           first: nat)
    requires size > 0
  {
    && Packets(start, size, alias, group, first) == gone + Packets(q, size, alias, group, first + |gone|)
    && Leftover(start, size) == Leftover(q, size)
  }

  lemma NoneGone(start: seq<Sample>, size: nat, alias: u64, group: u64, first: nat)
    requires size > 0
    ensures Progress(start, start, [], size, alias, group, first)
  {
    hide Packets;
    var ps := Packets(start, size, alias, group, first);
    assert [] + ps == ps;
  }

  lemma OnePacket(q: seq<Sample>, size: nat, alias: u64, group: u64, id: nat)
    requires size > 0 && |q| >= size
    ensures var d := PacketOf(q[..size], alias, group, Wrapped(id));
      Packets(q, size, alias, group, id) == [Header(d) + d.payload] + Packets(q[size..], size, alias, group, id + 1)
    ensures Leftover(q, size) == Leftover(q[size..], size)
  {
  }

  lemma OneGone(start: seq<Sample>, q: seq<Sample>, gone: seq<seq<byte>>, size: nat, alias: u64, group: u64, first: nat)
    requires size > 0 && |q| >= size && Progress(start, q, gone, size, alias, group, first)
    ensures var d := PacketOf(q[..size], alias, group, Wrapped(first + |gone|));
      Progress(start, q[size..], gone + [Header(d) + d.payload], size, alias, group, first)
  {
    hide Packets, PacketOf, Header, Leftover;
    var id := first + |gone|;
    OnePacket(q, size, alias, group, id);
    var d := PacketOf(q[..size], alias, group, Wrapped(id));
    var packet, rest := [Header(d) + d.payload], Packets(q[size..], size, alias, group, id + 1);
    assert gone + (packet + rest) == gone + packet + rest;
    assert |gone + packet| == |gone| + 1;
  }

  lemma NoPacket(q: seq<Sample>, size: nat, alias: u64, group: u64, id: nat)
    requires size > 0 && |q| < size
    ensures Packets(q, size, alias, group, id) == [] && Leftover(q, size) == q
  {
  }

  lemma AllGone(start: seq<Sample>, q: seq<Sample>, gone: seq<seq<byte>>, size: nat, alias: u64, group: u64, first: nat)
    requires size > 0 && |q| < size && Progress(start, q, gone, size, alias, group, first)
    ensures gone == Packets(start, size, alias, group, first) && q == Leftover(start, size)
  {
    hide Packets, Leftover;
    NoPacket(q, size, alias, group, first + |gone|);
    assert gone + [] == gone;
  }

  class PcmTrack {
    const ring: RingBuffer
    const channels: nat
    const frameSize: nat
    /** frameSize * channels, the floats in one datagram. */
    const frameFloats: nat
    const readBuffer: array<Sample>
    const encodeBuffer: array<byte>
    const datagramBuffer: array<byte>
    var alias: u64
    var nextGroupId: u64
    var nextObjectId: u64
    /** The datagrams handed to the transport. */
    var sent: seq<seq<byte>>

    ghost predicate Valid()
      reads this, ring, ring.data
    {
      && ring.Valid() && ring.channels == channels && IsProduct(frameFloats, frameSize, channels)
      && readBuffer != ring.data && readBuffer.Length == frameFloats && encodeBuffer != datagramBuffer
      && encodeBuffer.Length == 4 * frameFloats && datagramBuffer.Length == HEADER_ROOM + encodeBuffer.Length
    }

    constructor (rate: u32, channels: nat, frameMs: u32)
      requires 0 < channels && 0 < FramesIn(RING_MS, rate) * channels < 0x8000_0000
      ensures Valid() && this.channels == channels && frameSize == FramesIn(frameMs, rate)
      ensures ring.Contents() == [] && sent == [] && nextObjectId == 0 && alias == 0 && nextGroupId == 0
      ensures ring.capacityFrames == FramesIn(200, rate) && ring.channels == channels && fresh(ring) && fresh(ring.data)
    {
      var capacity := FramesIn(RING_MS, rate);
      ring := new RingBuffer(capacity, channels);
      this.channels, frameSize, frameFloats := channels, FramesIn(frameMs, rate), FramesIn(frameMs, rate) * channels;
      readBuffer := new Sample[FramesIn(frameMs, rate) * channels](_ => SILENCE);
      encodeBuffer := new byte[4 * (FramesIn(frameMs, rate) * channels)](_ => 0);
      datagramBuffer := new byte[HEADER_ROOM + 4 * (FramesIn(frameMs, rate) * channels)](_ => 0);
      alias, nextGroupId, nextObjectId, sent := 0, 0, 0, [];
    }

    /** The loop's guard. */
    method FrameQueued() returns (b: bool)
      requires Valid()
      ensures b <==> |ring.Contents()| >= frameFloats
    {
      var available := ring.ReadAvailable();
      EnoughFrames(|ring.Contents()|, frameSize, channels);
      b := available >= frameSize;
    }

    /** Header, then the encoded bytes behind it. */
    method Assemble(payloadBytes: nat, ghost pcm: seq<Sample>) returns (datagram: seq<byte>)
      requires Valid() && payloadBytes <= encodeBuffer.Length && encodeBuffer[..payloadBytes] == ToBytes(pcm)
      modifies datagramBuffer
      ensures var d := PacketOf(pcm, alias, nextGroupId, nextObjectId); datagram == Header(d) + d.payload
    {
      hide Header, ToBytes, RingBuffer.Valid;
      ghost var d := PacketOf(pcm, alias, nextGroupId, nextObjectId);
      ghost var before := datagramBuffer[..];
      var headerLen := BuildObjectDatagramHeader(Datagram(alias, nextGroupId, nextObjectId, 128, []), datagramBuffer);
      SameHeader(d, Datagram(alias, nextGroupId, nextObjectId, 128, []));
      ghost var was := datagramBuffer[..];
      var bytes := encodeBuffer[..payloadBytes];
      forall i | 0 <= i < |bytes| {
        datagramBuffer[headerLen + i] := bytes[i];
      }
      assert datagramBuffer[..] == was[..headerLen] + bytes + was[headerLen + |bytes|..];
      HoldsMore(was, datagramBuffer[..], before, Header(d), bytes);
      datagram := datagramBuffer[..headerLen + payloadBytes];
    }

    /** One frame: read, framed, given a header and sent. */
    method SendOne()
      requires Valid() && frameFloats > 0 && |ring.Contents()| >= frameFloats
      modifies this`nextObjectId, this`sent, ring`readPos, ring`buffered, readBuffer, encodeBuffer, datagramBuffer
      ensures Valid() && ring.Contents() == old(ring.Contents())[frameFloats..]
      ensures var d := PacketOf(old(ring.Contents())[..frameFloats], alias, nextGroupId, old(nextObjectId));
        sent == old(sent) + [Header(d) + d.payload]
      ensures nextObjectId == Wrapped(old(nextObjectId) + 1)
    {
      hide Header, ToBytes;
      ghost var pcm := ring.Contents()[..frameFloats];
      var frames := ring.Read(readBuffer, frameSize);
      assert readBuffer[..frameSize * channels] == pcm;
      var payloadBytes := PcmFrame(readBuffer, frameSize, channels, encodeBuffer);
      assert encodeBuffer[..payloadBytes] == ToBytes(pcm);
      var datagram := Assemble(payloadBytes, pcm);
      sent := sent + [datagram];
      nextObjectId := (nextObjectId + 1) % TWO64;
    }

    method SendWhileQueued()
      requires Valid() && frameFloats > 0
      modifies this`nextObjectId, this`sent, ring`readPos, ring`buffered, readBuffer, encodeBuffer, datagramBuffer
      ensures Valid()
      ensures ring.Contents() == Leftover(old(ring.Contents()), frameFloats)
      ensures var ps := Packets(old(ring.Contents()), frameFloats, alias, nextGroupId, old(nextObjectId));
        sent == old(sent) + ps && nextObjectId == Wrapped(old(nextObjectId) + |ps|)
    {
      WrappedIs(nextObjectId);
      hide Progress, Packets, Leftover, PacketOf, RingBuffer.Contents, RingBuffer.Valid, Header, IsProduct, Wrapped;
      ghost var start, first, gone: seq<seq<byte>> := ring.Contents(), nextObjectId, [];
      NoneGone(start, frameFloats, alias, nextGroupId, first);
      var more := FrameQueued();
      while more
        invariant Valid() && nextObjectId == Wrapped(first + |gone|)
        invariant more <==> |ring.Contents()| >= frameFloats
        invariant sent == old(sent) + gone
        invariant Progress(start, ring.Contents(), gone, frameFloats, alias, nextGroupId, first)
        decreases |ring.Contents()|
      {
        ghost var d := PacketOf(ring.Contents()[..frameFloats], alias, nextGroupId, nextObjectId);
        OneGone(start, ring.Contents(), gone, frameFloats, alias, nextGroupId, first);
        WrappedNext(first + |gone|);
        SendOne();
        gone := gone + [Header(d) + d.payload];
        more := FrameQueued();
      }
      AllGone(start, ring.Contents(), gone, frameFloats, alias, nextGroupId, first);
    }

    /** Every whole frame queued goes out as one datagram; what remains is less than a frame. */
    method SendPcmFrame()
      requires Valid() && frameSize > 0
      modifies this`nextObjectId, this`sent, ring`readPos, ring`buffered, readBuffer, encodeBuffer, datagramBuffer
      ensures Valid() && frameFloats > 0
      ensures ring.Contents() == Leftover(old(ring.Contents()), frameFloats)
      ensures var ps := Packets(old(ring.Contents()), frameFloats, alias, nextGroupId, old(nextObjectId));
        sent == old(sent) + ps && nextObjectId == Wrapped(old(nextObjectId) + |ps|)
    {
      hide Packets, Leftover;
      MulMonotone(1, frameSize, channels);
      SendWhileQueued();
    }

    /** A track the peer has not subscribed to is passed over. */
    method PollOutbound()
      requires Valid() && frameSize > 0
      modifies this`nextObjectId, this`sent, ring`readPos, ring`buffered, readBuffer, encodeBuffer, datagramBuffer
      ensures Valid() && frameFloats > 0
      ensures var q := old(ring.Contents());
        var ps := if alias == 0 then [] else Packets(q, frameFloats, alias, nextGroupId, old(nextObjectId));
        && ring.Contents() == (if alias == 0 then q else Leftover(q, frameFloats))
        && sent == old(sent) + ps && nextObjectId == Wrapped(old(nextObjectId) + |ps|)
    {
      hide Packets, Leftover;
      if alias != 0 {
        SendPcmFrame();
      } else {
        MulMonotone(1, frameSize, channels);
      }
    }
  }

  // ---- The peer's end, over whole runs ---------------------------------------------------

  /** Parsed and unframed: what one datagram brings. */
  function Heard(packet: seq<byte>, channels: nat): seq<Sample> {
    var d := ReadDatagram(packet);
    if d.Ok? && Unframed(d.value.payload, channels).Some? then Unframed(d.value.payload, channels).value else []
  }

  function HeardAll(packets: seq<seq<byte>>, channels: nat): seq<Sample> {
    if packets == [] then []
    else HeardAll(packets[..|packets| - 1], channels) + Heard(packets[|packets| - 1], channels)
  }

  /** What happens to an outbound PCM track: the application, the session thread, the peer's SUBSCRIBE, a reset. */
  datatype Step = Write(samples: seq<Sample>) | Send | Flush | Realias(alias: u64) | Reset

  /** The queue, the datagrams sent, the track's numbers, and how many had been sent at the last reset. */
  datatype Line = Line(queue: seq<Sample>, sent: seq<seq<byte>>, alias: u64, nextId: u64, since: nat)

  /** The stored group id is 0 throughout: nothing advances it. */
  const GROUP: u64 := 0

  function Next(l: Line, step: Step, size: nat, cap: nat): Line
    requires size > 0
  {
    match step
    case Write(samples) => l.(queue := LastN(l.queue + samples, cap))
    case Flush => l.(queue := [])
    case Realias(alias) => l.(alias := alias)
    case Reset => Line([], l.sent, 0, 0, |l.sent|)
    case Send =>
      if l.alias == 0 then l
      else
        var ps := Packets(l.queue, size, l.alias, GROUP, l.nextId);
        l.(queue := Leftover(l.queue, size), sent := l.sent + ps, nextId := Wrapped(l.nextId + |ps|))
  }

  function Run(steps: seq<Step>, size: nat, cap: nat): Line
    requires size > 0
  {
    if steps == [] then Line([], [], 0, 0, 0)
    else Next(Run(steps[..|steps| - 1], size, cap), steps[|steps| - 1], size, cap)
  }

  function Written(steps: seq<Step>): seq<Sample> {
    if steps == [] then []
    else
      var last := steps[|steps| - 1];
      Written(steps[..|steps| - 1]) + if last.Write? then last.samples else []
  }

  /** `packets` reach the peer with ids counting up from `id` and the given alias. */
  ghost predicate Numbered(packets: seq<seq<byte>>, alias: u64, group: u64, id: nat) {
    forall i :: 0 <= i < |packets| ==>
                  var d := ReadDatagram(packets[i]);
                  && d.Ok? && d.value.trackAlias == alias && d.value.groupId == group && d.value.objectId == id + i
                  && d.value.priority == 128
  }

  lemma PacketArrives(pcm: seq<Sample>, frames: nat, channels: nat, alias: u64, group: u64, id: u64)
    requires channels > 0 && |pcm| == frames * channels && alias < TWO62 && group < TWO62 && id < TWO62
    ensures var d := PacketOf(pcm, alias, group, id);
      ReadDatagram(Header(d) + d.payload) == Ok(d, []) && Heard(Header(d) + d.payload, channels) == pcm
  {
    hide ReadDatagram, Header, ToBytes, Unframed;
    DatagramRoundTrip(PacketOf(pcm, alias, group, id));
    FrameUnframe(pcm, frames, channels);
  }

  lemma {:induction false} HeardAppend(a: seq<seq<byte>>, b: seq<seq<byte>>, channels: nat)
    ensures HeardAll(a + b, channels) == HeardAll(a, channels) + HeardAll(b, channels)
  {
    hide Heard;
    if b == [] {
      assert a + b == a;
    } else {
      var all := a + b;
      assert all[..|all| - 1] == a + b[..|b| - 1];
      HeardAppend(a, b[..|b| - 1], channels);
    }
  }

  lemma HeardOne(packet: seq<byte>, channels: nat)
    ensures HeardAll([packet], channels) == Heard(packet, channels)
  {
    hide Heard;
    assert [packet][..0] == [];
    assert HeardAll([], channels) == [];
  }

  lemma NothingHeard(channels: nat, alias: u64, group: u64, id: nat)
    ensures HeardAll([], channels) == [] && Numbered([], alias, group, id)
  {
  }

  lemma PacketFields(pcm: seq<Sample>, alias: u64, group: u64, id: u64)
    ensures var d := PacketOf(pcm, alias, group, id);
      d.trackAlias == alias && d.groupId == group && d.objectId == id && d.priority == 128
  {
  }

  lemma NumberedCons(packet: seq<byte>, ps: seq<seq<byte>>, alias: u64, group: u64, id: nat)
    requires var d := ReadDatagram(packet);
      && d.Ok? && d.value.trackAlias == alias && d.value.groupId == group && d.value.objectId == id
      && d.value.priority == 128
    requires Numbered(ps, alias, group, id + 1)
    ensures Numbered([packet] + ps, alias, group, id)
  {
    hide ReadDatagram;
  }

  /** One send: what the peer hears and what stays queued make up what was queued. */
  lemma {:induction false} PacketsArrive(q: seq<Sample>, size: nat, frames: nat, channels: nat, alias: u64,
                                             group: u64, id: nat)
    requires channels > 0 && size == frames * channels > 0 && alias < TWO62 && group < TWO62 && id + |q| < TWO62
    ensures var ps := Packets(q, size, alias, group, id);
      && HeardAll(ps, channels) + Leftover(q, size) == q && Numbered(ps, alias, group, id)
      && |ps| + |Leftover(q, size)| <= |q|
    decreases |q|
  {
    hide Heard, HeardAll, ReadDatagram, PacketOf, Header, Packets, Leftover, Numbered;
    if |q| < size {
      NoPacket(q, size, alias, group, id);
      NothingHeard(channels, alias, group, id);
    } else {
      var pcm, rest, d := q[..size], q[size..], PacketOf(q[..size], alias, group, id);
      var packet, ps := Header(d) + d.payload, Packets(rest, size, alias, group, id + 1);
      OnePacket(q, size, alias, group, id);
      PacketArrives(pcm, frames, channels, alias, group, id);
      PacketsArrive(rest, size, frames, channels, alias, group, id + 1);
      HeardAppend([packet], ps, channels);
      HeardOne(packet, channels);
      PacketFields(pcm, alias, group, id);
      NumberedCons(packet, ps, alias, group, id);
      assert pcm + HeardAll(ps, channels) + Leftover(rest, size)
             == pcm + (HeardAll(ps, channels) + Leftover(rest, size));
      assert q == pcm + rest;
    }
  }

  /** What the peer hears, datagram by datagram. */
  function HeardEach(packets: seq<seq<byte>>, channels: nat): (outs: seq<seq<Sample>>)
    ensures |outs| == |packets| && forall i :: 0 <= i < |outs| ==> outs[i] == Heard(packets[i], channels)
  {
    seq(|packets|, i requires 0 <= i < |packets| => Heard(packets[i], channels))
  }

  /** Since the last reset the object ids are 0, 1, 2, ..., all in group 0 with priority 128. */
  ghost predicate IdsSince(sent: seq<seq<byte>>, since: nat) {
    since <= |sent| &&
    forall i :: since <= i < |sent| ==>
                  var d := ReadDatagram(sent[i]);
                  d.Ok? && d.value.objectId == i - since && d.value.groupId == 0 && d.value.priority == 128
  }

  lemma IdsGoOn(sent: seq<seq<byte>>, since: nat, ps: seq<seq<byte>>, alias: u64)
    requires IdsSince(sent, since) && Numbered(ps, alias, GROUP, |sent| - since)
    ensures IdsSince(sent + ps, since)
  {
    hide ReadDatagram;
  }

  /** The pieces a send delivers come next in the stream, each a whole datagram's worth. */
  lemma {:induction false} SendFollows(s: Queue, starts: seq<nat>, stream: seq<Sample>, size: nat, frames: nat,
                                           channels: nat, alias: u64, id: nat) returns (starts': seq<nat>)
    requires FollowsStream(s, starts, stream)
    requires channels > 0 && size == frames * channels > 0 && alias < TWO62 && id + |s.items| < TWO62
    ensures var ps := Packets(s.items, size, alias, GROUP, id);
      && FollowsStream(Queue(Leftover(s.items, size), s.outputs + HeardEach(ps, channels)), starts', stream)
      && forall i :: 0 <= i < |ps| ==> |Heard(ps[i], channels)| == size
    decreases |s.items|
  {
    hide Heard, ReadDatagram, PacketOf, Header, Packets, Leftover, FollowsStream;
    var q := s.items;
    if |q| < size {
      NoPacket(q, size, alias, GROUP, id);
      starts' := starts;
      assert s.outputs + HeardEach([], channels) == s.outputs;
    } else {
      var pcm, rest, d := q[..size], q[size..], PacketOf(q[..size], alias, GROUP, id);
      var packet, ps := Header(d) + d.payload, Packets(rest, size, alias, GROUP, id + 1);
      OnePacket(q, size, alias, GROUP, id);
      PacketArrives(pcm, frames, channels, alias, GROUP, id);
      starts' := AppendRead(s, stream, starts, size, |q|);
      var after := Queue(rest, s.outputs + [pcm]);
      starts' := SendFollows(after, starts', stream, size, frames, channels, alias, id + 1);
      assert s.outputs + [pcm] + HeardEach(ps, channels) == s.outputs + HeardEach([packet] + ps, channels);
    }
  }

  /** What the peer has heard follows the written stream, a whole datagram's worth at a time. */
  ghost predicate PiecesFollow(l: Line, starts: seq<nat>, stream: seq<Sample>, size: nat, channels: nat) {
    && FollowsStream(Queue(l.queue, HeardEach(l.sent, channels)), starts, stream)
    && forall i :: 0 <= i < |l.sent| ==> |Heard(l.sent[i], channels)| == size
  }

  /** The datagrams are numbered since the last reset. */
  ghost predicate IdsCount(l: Line, stream: seq<Sample>) {
    && l.alias < TWO62 && IdsSince(l.sent, l.since) && l.nextId == |l.sent| - l.since
    && |l.sent| + |l.queue| <= |stream|
  }

  ghost predicate Follows(l: Line, starts: seq<nat>, stream: seq<Sample>, size: nat, channels: nat) {
    PiecesFollow(l, starts, stream, size, channels) && IdsCount(l, stream)
  }

  lemma SinceWithin(sent: seq<seq<byte>>, since: nat)
    requires IdsSince(sent, since)
    ensures since <= |sent|
  {
  }

  lemma SendPieces(l: Line, starts: seq<nat>, stream: seq<Sample>, size: nat, frames: nat, channels: nat, cap: nat)
      returns (starts': seq<nat>)
    requires PiecesFollow(l, starts, stream, size, channels) && l.alias < TWO62 && l.nextId + |l.queue| < TWO62
    requires channels > 0 && size == frames * channels > 0
    ensures PiecesFollow(Next(l, Send, size, cap), starts', stream, size, channels)
  {
    hide Heard, Packets, Leftover, FollowsStream;
    starts' := starts;
    if l.alias != 0 {
      var ps := Packets(l.queue, size, l.alias, GROUP, l.nextId);
      starts' := SendFollows(Queue(l.queue, HeardEach(l.sent, channels)), starts, stream, size, frames, channels,
                             l.alias, l.nextId);
      assert HeardEach(l.sent + ps, channels) == HeardEach(l.sent, channels) + HeardEach(ps, channels);
    }
  }

  lemma SendIds(l: Line, stream: seq<Sample>, size: nat, frames: nat, channels: nat, cap: nat)
    requires IdsCount(l, stream) && |stream| < TWO62 && channels > 0 && size == frames * channels > 0
    ensures IdsCount(Next(l, Send, size, cap), stream)
  {
    hide Heard, HeardAll, Packets, Leftover, IdsSince, Numbered;
    if l.alias != 0 {
      var ps := Packets(l.queue, size, l.alias, GROUP, l.nextId);
      PacketsArrive(l.queue, size, frames, channels, l.alias, GROUP, l.nextId);
      IdsGoOn(l.sent, l.since, ps, l.alias);
      SinceWithin(l.sent, l.since);
    }
  }

  lemma SendStep(l: Line, starts: seq<nat>, stream: seq<Sample>, size: nat, frames: nat, channels: nat, cap: nat)
      returns (starts': seq<nat>)
    requires Follows(l, starts, stream, size, channels) && |stream| < TWO62
    requires channels > 0 && size == frames * channels > 0
    ensures Follows(Next(l, Send, size, cap), starts', stream, size, channels)
  {
    hide PiecesFollow, IdsSince, Next;
    SinceWithin(l.sent, l.since);
    starts' := SendPieces(l, starts, stream, size, frames, channels, cap);
    SendIds(l, stream, size, frames, channels, cap);
  }

  lemma OtherStep(l: Line, starts: seq<nat>, stream: seq<Sample>, step: Step, size: nat, channels: nat, cap: nat)
    requires Follows(l, starts, stream, size, channels) && size > 0
    requires !step.Send? && (step.Realias? ==> step.alias < TWO62)
    ensures Follows(Next(l, step, size, cap), starts, stream + if step.Write? then step.samples else [], size, channels)
  {
    hide Heard, ReadDatagram, Packets, Leftover;
    var s := Queue(l.queue, HeardEach(l.sent, channels));
    match step {
      case Write(samples) =>
        AppendWrite(s, stream, starts, samples, cap);
      case Flush =>
        assert stream + [] == stream;
      case Realias(alias) =>
        assert stream + [] == stream;
      case Reset =>
        assert stream + [] == stream;
    }
  }

  lemma NothingFollows(size: nat, channels: nat)
    ensures Follows(Line([], [], 0, 0, 0), [], [], size, channels)
  {
  }

  /**
   * Over every run of writes, sends, flushes, new aliases and resets, what the peer parses and unframes are pieces of
   * the written stream, one whole datagram each, in stream order and without overlap; floats may be dropped, but are
   * never repeated, reordered or invented; and since the last reset the object ids are 0, 1, 2, ...
   */
  lemma {:induction false} PeerHearsOrderedPieces(steps: seq<Step>, size: nat, frames: nat, channels: nat, cap: nat)
      returns (starts: seq<nat>)
    requires channels > 0 && size == frames * channels > 0 && |Written(steps)| < TWO62
    requires forall step :: step in steps && step.Realias? ==> step.alias < TWO62
    ensures Follows(Run(steps, size, cap), starts, Written(steps), size, channels)
  {
    hide Heard, Next, Follows;
    if steps == [] {
      starts := [];
      NothingFollows(size, channels);
    } else {
      var init, last := steps[..|steps| - 1], steps[|steps| - 1];
      assert last in steps;
      starts := PeerHearsOrderedPieces(init, size, frames, channels, cap);
      var l := Run(init, size, cap);
      if last.Send? {
        starts := SendStep(l, starts, Written(init), size, frames, channels, cap);
        assert Written(init) + [] == Written(init);
      } else {
        OtherStep(l, starts, Written(init), last, size, channels, cap);
      }
    }
  }

  /** After a reset nothing is sent until the peer subscribes again. */
  lemma ResetSilences(l: Line, size: nat, cap: nat)
    requires size > 0
    ensures var r := Next(l, Reset, size, cap);
      Next(r, Send, size, cap) == r && r.queue == [] && r.sent == l.sent
  {
  }

  /** A step that loses nothing: a write that fits, a send, a new alias. */
  predicate Keeps(l: Line, step: Step, cap: nat) {
    || (step.Write? && |l.queue| + |step.samples| <= cap)
    || step.Send? || step.Realias?
  }

  ghost predicate Lossless(steps: seq<Step>, size: nat, cap: nat)
    requires size > 0
  {
    forall i :: 0 <= i < |steps| ==> Keeps(Run(steps[..i], size, cap), steps[i], cap)
  }

  lemma KeepsPrefix(l: Line, starts: seq<nat>, stream: seq<Sample>, step: Step, size: nat, frames: nat, channels: nat,
                    cap: nat)
    requires channels > 0 && size == frames * channels > 0 && |stream| < TWO62
    requires Follows(l, starts, stream, size, channels) && Keeps(l, step, cap)
    requires HeardAll(l.sent, channels) + l.queue == stream && l.since == 0
    ensures var r := Next(l, step, size, cap);
      && HeardAll(r.sent, channels) + r.queue == (stream + if step.Write? then step.samples else []) && r.since == 0
      && (step.Send? && r.alias != 0 ==> |r.queue| < size)
  {
    hide Heard, HeardAll, Packets, Leftover, FollowsStream, IdsSince, Numbered;
    match step {
      case Write(samples) =>
        assert HeardAll(l.sent, channels) + (l.queue + samples) == HeardAll(l.sent, channels) + l.queue + samples;
      case Realias(alias) =>
        assert stream + [] == stream;
      case Send =>
        assert stream + [] == stream;
        if l.alias != 0 {
          var ps := Packets(l.queue, size, l.alias, GROUP, l.nextId);
          PacketsArrive(l.queue, size, frames, channels, l.alias, GROUP, l.nextId);
          HeardAppend(l.sent, ps, channels);
          assert HeardAll(l.sent, channels) + (HeardAll(ps, channels) + Leftover(l.queue, size))
                 == HeardAll(l.sent + ps, channels) + Leftover(l.queue, size);
        }
    }
  }

  /**
   * Over every run in which nothing overflows, is flushed or reset, what the peer hears followed by what is still
   * queued is exactly what was written; a send to a subscribed peer leaves less than a datagram's worth.
   */
  lemma {:induction false} PeerHearsPrefix(steps: seq<Step>, size: nat, frames: nat, channels: nat, cap: nat)
    requires channels > 0 && size == frames * channels > 0 && |Written(steps)| < TWO62
    requires forall step :: step in steps && step.Realias? ==> step.alias < TWO62
    requires Lossless(steps, size, cap)
    ensures var l := Run(steps, size, cap);
      && HeardAll(l.sent, channels) + l.queue == Written(steps) && l.since == 0
      && (steps != [] && steps[|steps| - 1].Send? && l.alias != 0 ==> |l.queue| < size)
  {
    hide Heard, HeardAll, Packets, Leftover, Follows, Keeps;
    if steps == [] {
      NothingHeard(channels, 0, 0, 0);
    } else {
      var n := |steps| - 1;
      var init, last := steps[..n], steps[n];
      assert last in steps;
      forall i | 0 <= i < n
        ensures Keeps(Run(init[..i], size, cap), init[i], cap)
      {
        assert init[..i] == steps[..i];
      }
      PeerHearsPrefix(init, size, frames, channels, cap);
      var starts := PeerHearsOrderedPieces(init, size, frames, channels, cap);
      KeepsPrefix(Run(init, size, cap), starts, Written(init), last, size, frames, channels, cap);
    }
  }
}
