/** Reassembly of control messages from the chunks the stream delivers. */
module ControlStream {
  import opened Bytes
  import opened Varint
  import opened Wire
  import opened Framing

  /** Every complete message at the front, and what is left over. */
  function ParseAll(s: seq<byte>): (r: (seq<Message>, seq<byte>))
    decreases |s|
  {
    var f := ReadFrame(s);
    if !f.Ok? then ([], s)
    else
      FrameTakesThree(s);
      var (ms, left) := ParseAll(f.rest);
      ([f.value] + ms, left)
  }

  function Concat(chunks: seq<seq<byte>>): seq<byte> {
    if chunks == [] then [] else chunks[0] + Concat(chunks[1..])
  }

  /** A SERVER_SETUP whose parameters parse makes the session ready. */
  predicate MakesReady(m: Message) {
    m.msgType == SERVER_SETUP && ReadParams(m.content).Ok?
  }

  predicate AnyReady(ms: seq<Message>) {
    exists m :: m in ms && MakesReady(m)
  }

  lemma ParseStops(s: seq<byte>)
    requires !ReadFrame(s).Ok?
    ensures ParseAll(s) == ([], s)
  {
  }

  lemma FrameIsSuffix(s: seq<byte>)
    requires ReadFrame(s).Ok?
    ensures var rest := ReadFrame(s).rest; |rest| <= |s| && rest == s[|s| - |rest|..]
  {
    hide FromBigEndian, VarintValue;
  }

  lemma ParseStep(s: seq<byte>)
    requires ReadFrame(s).Ok?
    ensures var f := ReadFrame(s);
      && |f.rest| < |s| && f.rest == s[|s| - |f.rest|..]
      && ParseAll(s).0 == [f.value] + ParseAll(f.rest).0 && ParseAll(s).1 == ParseAll(f.rest).1
  {
    FrameTakesThree(s);
    FrameIsSuffix(s);
  }

  lemma NothingToRead()
    ensures !ReadFrame([]).Ok?
  {
  }

  lemma EmptyParse()
    ensures ParseAll([]) == ([], [])
  {
    NothingToRead();
  }

  class Transport {
    /** Chunks queued by the network thread, the reassembly buffer, and what the callback has been given. */
    var pending: seq<seq<byte>>
    var recvBuffer: seq<byte>
    var dispatched: seq<Message>
    var ready: bool

    constructor ()
      ensures pending == [] && recvBuffer == [] && dispatched == [] && !ready
    {
      pending, recvBuffer, dispatched, ready := [], [], [], false;
    }

    /** The network thread's side. */
    method Receive(chunk: seq<byte>)
      modifies this`pending
      ensures pending == old(pending) + [chunk]
    {
      pending := pending + [chunk];
    }

    /** Dispatches every complete message and erases what was consumed. */
    method ParseBuffered()
      modifies this`dispatched, this`ready, this`recvBuffer
      ensures var (ms, left) := ParseAll(old(recvBuffer));
        && dispatched == old(dispatched) + ms && recvBuffer == left
        && ready == (old(ready) || AnyReady(ms))
    {
      hide ReadFrame, ParseAll, MakesReady;
      var offset, len := 0, |recvBuffer|;
      ghost var done: seq<Message> := [];
      assert recvBuffer[0..] == recvBuffer;
      assert [] + ParseAll(recvBuffer).0 == ParseAll(recvBuffer).0;
      while offset < len
        invariant offset <= len == |recvBuffer| && recvBuffer == old(recvBuffer)
        invariant dispatched == old(dispatched) + done
        invariant ready == (old(ready) || AnyReady(done))
        invariant ParseAll(recvBuffer).0 == done + ParseAll(recvBuffer[offset..]).0
        invariant ParseAll(recvBuffer).1 == ParseAll(recvBuffer[offset..]).1
      {
        var unread := recvBuffer[offset..];
        var f := ReadFrame(unread);
        if !f.Ok? {
          ParseStops(unread);
          break;
        }
        if MakesReady(f.value) {
          ready := true;
        }
        dispatched := dispatched + [f.value];
        ParseStep(unread);
        done := done + [f.value];
        offset := len - |f.rest|;
        assert recvBuffer[offset..] == f.rest;
      }
      if offset == len {
        EmptyParse();
      }
      assert ParseAll(recvBuffer[offset..]).1 == recvBuffer[offset..];
      recvBuffer := recvBuffer[offset..];
    }

    method Drain()
      modifies this`pending, this`recvBuffer
      ensures pending == [] && recvBuffer == old(recvBuffer + Concat(pending))
    {
      while pending != []
        invariant recvBuffer + Concat(pending) == old(recvBuffer + Concat(pending))
        decreases |pending|
      {
        var chunk := pending[0];
        pending := pending[1..];
        recvBuffer := recvBuffer + chunk;
      }
    }

    method DrainAndParse()
      requires |recvBuffer + Concat(pending)| < 0x8000_0000
      modifies this
      ensures var (ms, left) := ParseAll(old(recvBuffer + Concat(pending)));
        && dispatched == old(dispatched) + ms && recvBuffer == left && pending == []
        && ready == (old(ready) || AnyReady(ms))
    {
      Drain();
      if recvBuffer == [] {
        EmptyParse();
        return;
      }
      ParseBuffered();
    }
  }

  // ---- Chunking independence ----------------------------------------------------------

  /** Parsing may stop anywhere and go on when more has arrived. */
  lemma {:induction false} ParseAllAppend(a: seq<byte>, b: seq<byte>)
    ensures var (ms, left) := ParseAll(a);
      var (more, end) := ParseAll(left + b);
      ParseAll(a + b) == (ms + more, end)
    decreases |a|
  {
    hide ReadFrame;
    var f := ReadFrame(a);
    if f.Ok? {
      FrameTakesThree(a);
      ReadFrameMore(a, b);
      ParseAllAppend(f.rest, b);
      var (ms, left) := ParseAll(f.rest);
      var (more, end) := ParseAll(left + b);
      assert [f.value] + (ms + more) == [f.value] + ms + more;
    } else {
      assert [] + ParseAll(a + b).0 == ParseAll(a + b).0;
    }
  }

  lemma {:induction false} ConcatAppend(a: seq<seq<byte>>, b: seq<seq<byte>>)
    ensures Concat(a + b) == Concat(a) + Concat(b)
  {
    if a == [] {
      assert a + b == b;
    } else {
      assert (a + b)[1..] == a[1..] + b;
      ConcatAppend(a[1..], b);
    }
  }

  /** Each chunk lies whole between the ones before it and the ones behind it. */
  lemma ChunkInPlace(chunks: seq<seq<byte>>, i: nat)
    requires i < |chunks|
    ensures Concat(chunks) == Concat(chunks[..i]) + chunks[i] + Concat(chunks[i + 1..])
  {
    assert chunks == chunks[..i] + chunks[i..];
    ConcatAppend(chunks[..i], chunks[i..]);
    assert Concat(chunks[i..]) == chunks[i] + Concat(chunks[i + 1..]);
    assert Concat(chunks[..i]) + (chunks[i] + Concat(chunks[i + 1..]))
           == Concat(chunks[..i]) + chunks[i] + Concat(chunks[i + 1..]);
  }

  /** What a run of drain_and_parse calls dispatches and leaves; each call finds some list of chunks queued. */
  function Calls(calls: seq<seq<seq<byte>>>): (seq<Message>, seq<byte>) {
    if calls == [] then ([], [])
    else
      var (ms, left) := Calls(calls[..|calls| - 1]);
      var (more, end) := ParseAll(left + Concat(calls[|calls| - 1]));
      (ms + more, end)
  }

  function Arrived(calls: seq<seq<seq<byte>>>): seq<byte> {
    if calls == [] then [] else Arrived(calls[..|calls| - 1]) + Concat(calls[|calls| - 1])
  }

  /** However the bytes are cut into chunks and calls, the result is that of parsing them all at once. */
  lemma {:induction false} ChunkingIndependence(calls: seq<seq<seq<byte>>>)
    ensures Calls(calls) == ParseAll(Arrived(calls))
  {
    hide ReadFrame;
    if calls == [] {
      assert ParseAll([]) == ([], []) by {
        NothingToRead();
      }
    } else {
      ChunkingIndependence(calls[..|calls| - 1]);
      ParseAllAppend(Arrived(calls[..|calls| - 1]), Concat(calls[|calls| - 1]));
    }
  }

  function Frames(ms: seq<Message>): seq<byte> {
    if ms == [] then [] else Frame(ms[0]) + Frames(ms[1..])
  }

  /** A stream that begins with built messages parses as exactly those messages, then as what follows them. */
  lemma {:induction false} FramesParse(ms: seq<Message>, tail: seq<byte>)
    requires forall m :: m in ms ==> m.msgType < TWO62 && |m.content| < 0x1_0000
    ensures ParseAll(Frames(ms) + tail) == (ms + ParseAll(tail).0, ParseAll(tail).1)
  {
    hide ReadFrame, Frame;
    if ms == [] {
      assert Frames(ms) + tail == tail && ms + ParseAll(tail).0 == ParseAll(tail).0;
    } else {
      var rest := Frames(ms[1..]) + tail;
      assert Frames(ms) + tail == Frame(ms[0]) + rest;
      FrameRoundTrip(ms[0], rest);
      FramesParse(ms[1..], tail);
      assert [ms[0]] + (ms[1..] + ParseAll(tail).0) == ms + ParseAll(tail).0;
    }
  }

  lemma BuiltMessagesAnyChunking(ms: seq<Message>, calls: seq<seq<seq<byte>>>)
    requires forall m :: m in ms ==> m.msgType < TWO62 && |m.content| < 0x1_0000
    requires Arrived(calls) == Frames(ms)
    ensures Calls(calls) == (ms, [])
  {
    hide ReadFrame, ParseAll;
    ChunkingIndependence(calls);
    FramesParse(ms, []);
    assert Frames(ms) + [] == Frames(ms);
    assert ParseAll([]) == ([], []) by {
      EmptyParse();
    }
    assert ms + [] == ms;
  }
}
