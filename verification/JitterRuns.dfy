/** The jitter buffer over every sequence of whole write and read calls. */
module JitterRuns {
  import opened Bytes
  import opened Ring
  import opened JitterModel
  import opened JitterLaws

  datatype Event = Wrote(src: seq<Sample>) | Asked(n: nat)

  /** What one read gave its caller, and which positions of the accepted stream its plan named. */
  datatype Returned = Returned(start: nat, stop: nat, out: seq<Sample>, ok: bool)

  /** The buffer, everything accepted, what the reads returned, and where the accepted floats went. */
  datatype Ledger = Ledger(m: Meter, accepted: seq<Sample>, returned: seq<Returned>,
                           consumed: int, skipped: int, trueReads: nat)

  const START := Ledger(EMPTY, [], [], 0, 0, 0)

  /** Readers ask for whole frames; writers may bring anything. */
  predicate Framed(p: Params, e: Event)
    requires 0 < p.channels
  {
    e.Asked? ==> Slot(e.n, p.channels) == 0
  }

  ghost predicate Good(p: Params, l: Ledger) {
    p.Sane() && l.m.Ok(p) && l.m.end == |l.accepted|
  }

  function Deliver(p: Params, l: Ledger, plan: Plan, n: nat): Ledger
    requires plan.start <= plan.stop <= |l.accepted| && plan.stop - plan.start <= n
    requires plan.repeats ==> 0 < p.channels <= plan.stop - plan.start
  {
    var r := Returned(plan.start, plan.stop, Output(l.accepted, p.channels, plan, n), plan.ok);
    l.(m := plan.next, returned := l.returned + [r],
       consumed := l.consumed + plan.next.pos - plan.start,
       skipped := l.skipped + plan.start - l.m.pos,
       trueReads := l.trueReads + (if plan.ok then 1 else 0))
  }

  /** A plan always names a piece of the accepted stream that fits the request. */
  lemma ReadFits(p: Params, m: Meter, n: nat)
    requires p.Sane() && m.Ok(p) && Slot(n, p.channels) == 0
    ensures var plan := Read(p, m, n);
      && m.pos <= plan.start <= plan.stop <= plan.next.pos <= m.end == plan.next.end
      && plan.stop - plan.start <= n && plan.next.pos <= plan.start + n + p.channels
      && (plan.repeats ==> 0 < p.channels <= plan.stop - plan.start)
      && (!plan.ok ==> plan.start == plan.stop == plan.next.pos == m.pos && !plan.repeats && !m.overflow)
      && plan.next.Ok(p)
  {
    if n > 0 {
      ReadInOrder(p, m, n);
    }
  }

  function Step(p: Params, l: Ledger, e: Event): Ledger
    requires Good(p, l) && Framed(p, e)
  {
    match e
    case Wrote(src) =>
      l.(m := Write(p, l.m, |Kept(p, src)|), accepted := l.accepted + Kept(p, src))
    case Asked(n) =>
      ReadFits(p, l.m, n);
      Deliver(p, l, Read(p, l.m, n), n)
  }

  lemma StepKeepsGood(p: Params, l: Ledger, e: Event)
    requires Good(p, l) && Framed(p, e)
    ensures Good(p, Step(p, l, e))
  {
    match e
    case Wrote(src) => SnapFits(p);
    case Asked(n) => ReadFits(p, l.m, n);
  }

  /** `l` is where the run of `events` leads. */
  function Run(p: Params, events: seq<Event>): (l: Ledger)
    requires p.Sane() && forall e :: e in events ==> Framed(p, e)
    ensures Good(p, l)
  {
    if events == [] then START
    else
      var l := Run(p, events[..|events| - 1]);
      StepKeepsGood(p, l, events[|events| - 1]);
      Step(p, l, events[|events| - 1])
  }

  /** Everything the writes of a run put into the ring. */
  function AcceptedOf(p: Params, events: seq<Event>): seq<Sample> {
    if events == [] then []
    else
      var e := events[|events| - 1];
      AcceptedOf(p, events[..|events| - 1]) + (if e.Wrote? then Kept(p, e.src) else [])
  }

  // ---- Stream refinement ----------------------------------------------------------

  /** Everything behind the delivered piece is silence, or the piece's last frame over and over. */
  ghost predicate Padding(out: seq<Sample>, len: nat, channels: nat)
    requires 0 < channels && len <= |out|
  {
    || out[len..] == Zeros(|out| - len)
    || (channels <= len && out[len..] == Repeats(out[len - channels..len], |out| - len))
  }

  /** The return value is a piece of the stream, then padding; silence when the read was false. */
  ghost predicate Carries(r: Returned, stream: seq<Sample>, channels: nat)
    requires 0 < channels
  {
    && r.start <= r.stop <= |stream| && r.stop - r.start <= |r.out|
    && r.out[..r.stop - r.start] == stream[r.start..r.stop]
    && Padding(r.out, r.stop - r.start, channels)
    && (!r.ok ==> r.start == r.stop && r.out == Zeros(|r.out|))
  }

  lemma CarriesLonger(r: Returned, stream: seq<Sample>, channels: nat, more: seq<Sample>)
    requires 0 < channels && Carries(r, stream, channels)
    ensures Carries(r, stream + more, channels)
  {
    assert (stream + more)[r.start..r.stop] == stream[r.start..r.stop];
  }

  lemma ExtendedPads(piece: seq<Sample>, channels: nat, n: nat)
    requires 0 < channels <= |piece| <= n
    ensures var out := Extended(piece, channels, n); out[..|piece|] == piece && Padding(out, |piece|, channels)
  {
    hide Repeats;
    var out := Extended(piece, channels, n);
    assert out[|piece|..] == Repeats(piece[|piece| - channels..], n - |piece|);
    assert out[|piece| - channels..|piece|] == piece[|piece| - channels..];
  }

  lemma SilencePads(piece: seq<Sample>, channels: nat, n: nat)
    requires 0 < channels && |piece| <= n
    ensures var out := piece + Zeros(n - |piece|); out[..|piece|] == piece && Padding(out, |piece|, channels)
    ensures piece == [] ==> piece + Zeros(n - |piece|) == Zeros(n)
  {
    hide Repeats;
    var out := piece + Zeros(n - |piece|);
    assert out[|piece|..] == Zeros(n - |piece|);
  }

  lemma CarriesParts(r: Returned, piece: seq<Sample>, stream: seq<Sample>, channels: nat)
    requires 0 < channels && r.start <= r.stop <= |stream| && piece == stream[r.start..r.stop]
    requires |piece| <= |r.out| && r.out[..|piece|] == piece && Padding(r.out, |piece|, channels)
    requires !r.ok ==> piece == [] && r.out == Zeros(|r.out|)
    ensures Carries(r, stream, channels)
  {
    hide Padding;
  }

  lemma OutputCarries(stream: seq<Sample>, channels: nat, plan: Plan, n: nat)
    requires plan.start <= plan.stop <= |stream| && plan.stop - plan.start <= n
    requires 0 < channels && (plan.repeats ==> channels <= plan.stop - plan.start)
    requires !plan.ok ==> plan.start == plan.stop && !plan.repeats
    ensures Carries(Returned(plan.start, plan.stop, Output(stream, channels, plan, n), plan.ok), stream, channels)
  {
    hide Carries, Padding, Extended;
    var piece := stream[plan.start..plan.stop];
    if plan.repeats {
      ExtendedPads(piece, channels, n);
    } else {
      SilencePads(piece, channels, n);
    }
    CarriesParts(Returned(plan.start, plan.stop, Output(stream, channels, plan, n), plan.ok), piece, stream, channels);
  }

  /** The returns carry pieces of the stream, in stream order, all behind position `limit`. */
  ghost predicate Explained(rs: seq<Returned>, stream: seq<Sample>, limit: nat, channels: nat)
    requires 0 < channels
  {
    && (forall i :: 0 <= i < |rs| ==> Carries(rs[i], stream, channels) && rs[i].stop <= limit)
    && (forall i, k :: 0 <= i < k < |rs| ==> rs[i].stop <= rs[k].start)
  }

  lemma OneMoreReturn(rs: seq<Returned>, r: Returned, stream: seq<Sample>, limit: nat, limit': nat, channels: nat)
    requires 0 < channels && Explained(rs, stream, limit, channels)
    requires Carries(r, stream, channels) && limit <= r.start && r.stop <= limit'
    ensures Explained(rs + [r], stream, limit', channels)
  {
  }

  lemma LongerStream(rs: seq<Returned>, stream: seq<Sample>, more: seq<Sample>, limit: nat, channels: nat)
    requires 0 < channels && Explained(rs, stream, limit, channels)
    ensures Explained(rs, stream + more, limit, channels)
  {
    forall i | 0 <= i < |rs|
      ensures Carries(rs[i], stream + more, channels)
    {
      CarriesLonger(rs[i], stream, channels, more);
    }
  }

  lemma StepExplained(p: Params, l: Ledger, e: Event)
    requires Good(p, l) && Framed(p, e) && Explained(l.returned, l.accepted, l.m.pos, p.channels)
    ensures var l' := Step(p, l, e); Explained(l'.returned, l'.accepted, l'.m.pos, p.channels)
  {
    match e
    case Wrote(src) =>
      LongerStream(l.returned, l.accepted, Kept(p, src), l.m.pos, p.channels);
    case Asked(n) =>
      var plan := Read(p, l.m, n);
      ReadFits(p, l.m, n);
      OutputCarries(l.accepted, p.channels, plan, n);
      var r := Returned(plan.start, plan.stop, Output(l.accepted, p.channels, plan, n), plan.ok);
      OneMoreReturn(l.returned, r, l.accepted, l.m.pos, plan.next.pos, p.channels);
  }

  /**
   * Over every run of whole calls, with reads of whole frames: the accepted stream is what the writes kept, in
   * order; every read returned a contiguous piece of it followed by copies of its last frame or zeros, and false
   * reads nothing but zeros; the pieces come in stream order without overlap, all behind the reader's position.
   */
  lemma {:induction false} StreamRefinement(p: Params, events: seq<Event>)
    requires p.Sane() && forall e :: e in events ==> Framed(p, e)
    ensures Run(p, events).accepted == AcceptedOf(p, events)
    ensures var l := Run(p, events); Explained(l.returned, l.accepted, l.m.pos, p.channels)
  {
    if events != [] {
      var init, e := events[..|events| - 1], events[|events| - 1];
      StreamRefinement(p, init);
      assert Framed(p, e);
      StepExplained(p, Run(p, init), e);
    }
  }

  // ---- Conservation and pacing ------------------------------------------------------

  /** A call never moves the reader back; a read takes at most one frame more than was asked for. */
  lemma StepMovesForward(p: Params, l: Ledger, e: Event)
    requires Good(p, l) && Framed(p, e)
    ensures var l' := Step(p, l, e);
      && l.m.pos <= l'.m.pos && l.skipped <= l'.skipped
      && l.consumed <= l'.consumed <= l.consumed + (if e.Asked? then e.n + p.channels else 0)
      && l'.m.pos - l.m.pos == (l'.consumed - l.consumed) + (l'.skipped - l.skipped)
  {
    if e.Asked? {
      ReadFits(p, l.m, e.n);
    }
  }

  /** With the overflow flag clear, accepted floats = consumed by reads + skipped by snaps + buffered. */
  lemma {:induction false} Conservation(p: Params, events: seq<Event>)
    requires p.Sane() && forall e :: e in events ==> Framed(p, e)
    ensures var l := Run(p, events);
      && 0 <= l.consumed && 0 <= l.skipped && l.m.pos == l.consumed + l.skipped
      && (!l.m.overflow ==>
            && |AcceptedOf(p, events)| == l.consumed + l.skipped + l.m.Buffered(p)
            && l.m.Buffered(p) <= p.cap)
  {
    if events != [] {
      var init, e := events[..|events| - 1], events[|events| - 1];
      Conservation(p, init);
      assert Framed(p, e);
      StepMovesForward(p, Run(p, init), e);
    }
    StreamRefinement(p, events);
  }

  lemma StepPaces(p: Params, l: Ledger, e: Event)
    requires Good(p, l) && Framed(p, e)
    ensures l.m.counter < Turn(p) ==> Step(p, l, e).m.counter < Turn(p)
    ensures Paced(p, Step(p, l, e).m) - Paced(p, l.m) <= Step(p, l, e).trueReads - l.trueReads
  {
    if e.Asked? {
      ReadPaces(p, l.m, e.n);
      if l.m.counter < Turn(p) {
        ReadCounts(p, l.m, e.n);
      }
    }
  }

  /** How many of the reads returned true. */
  function Trues(returned: seq<Returned>): nat {
    if returned == [] then 0
    else Trues(returned[..|returned| - 1]) + if returned[|returned| - 1].ok then 1 else 0
  }

  lemma StepTrues(p: Params, l: Ledger, e: Event)
    requires Good(p, l) && Framed(p, e)
    ensures Step(p, l, e).trueReads - l.trueReads == Trues(Step(p, l, e).returned) - Trues(l.returned)
  {
    hide Read, Output;
    var returned := Step(p, l, e).returned;
    assert e.Asked? ==> returned[..|returned| - 1] == l.returned;
  }

  /** interval x corrections + counter never exceeds the number of reads that produced audio. */
  lemma {:induction false} Pacing(p: Params, events: seq<Event>)
    requires p.Sane() && forall e :: e in events ==> Framed(p, e)
    ensures Paced(p, Run(p, events).m) <= Run(p, events).trueReads == Trues(Run(p, events).returned)
    ensures Run(p, events).m.counter < Turn(p)
  {
    hide Step;
    if events != [] {
      var init, e := events[..|events| - 1], events[|events| - 1];
      Pacing(p, init);
      StepTrues(p, Run(p, init), e);
      assert Framed(p, e);
      StepPaces(p, Run(p, init), e);
    }
  }

  lemma StepOnFrames(p: Params, l: Ledger, e: Event)
    requires Good(p, l) && Framed(p, e) && OnFrames(p, l.m) && Slot(p.cap, p.channels) == 0
    requires e.Wrote? ==> Slot(|e.src|, p.channels) == 0
    requires forall r :: r in l.returned ==> Slot(r.start, p.channels) == 0
    ensures OnFrames(p, Step(p, l, e).m)
    ensures forall r :: r in Step(p, l, e).returned ==> Slot(r.start, p.channels) == 0
  {
    match e
    case Wrote(src) =>
      SlotPast(l.m.end, l.m.end + |Kept(p, src)|, p.channels);
    case Asked(n) =>
      if n > 0 {
        ReadOnFrames(p, l.m, n);
      }
  }

  /** If writes bring whole frames too, no run can shift the channels. */
  lemma {:induction false} RunOnFrames(p: Params, events: seq<Event>)
    requires p.Sane() && Slot(p.cap, p.channels) == 0
    requires forall e :: e in events ==> Framed(p, e) && (e.Wrote? ==> Slot(|e.src|, p.channels) == 0)
    ensures OnFrames(p, Run(p, events).m)
    ensures forall r :: r in Run(p, events).returned ==> Slot(r.start, p.channels) == 0
  {
    if events != [] {
      var init, e := events[..|events| - 1], events[|events| - 1];
      RunOnFrames(p, init);
      assert e in events;
      StepOnFrames(p, Run(p, init), e);
    }
  }
}
