/**
 * What the inbound jitter buffer does, with no ring: the specification the class in JitterBuffers refines. A Meter
 * carries the counts and the mode; `pos` is the reader's absolute position in everything accepted so far and `end`
 * the writer's. A read is a Plan: which piece of the accepted stream it delivers, and the Meter it leaves.
 */
module JitterModel {
  import opened Bytes
  import opened Arith
  import opened Ring
  import RingBuffers

  /** The configured sizes; `cap` counts floats, the thresholds count frames. */
  datatype Params = Params(channels: nat, cap: nat, low: nat, high: nat, centre: nat, min: nat, max: nat,
                           interval: nat)
  {
    ghost predicate Sane() {
      && 0 < channels
      && 1 <= min <= low <= centre <= high <= max
      && Times(max, channels) <= cap < 0x8000_0000
    }

    /** Floats the reader keeps when it snaps. */
    function Snap(): nat {
      Times(centre, channels)
    }
  }

  datatype Meter = Meter(end: nat, pos: nat, overflow: bool, playing: bool, counter: nat,
                         underruns: nat, overruns: nat, dropped: nat, inserted: nat)
  {
    function Buf(): int {
      end - pos
    }

    /** The published fill: the whole ring once the writer has flagged an overflow. */
    function Buffered(p: Params): int {
      if overflow then p.cap else Buf()
    }

    ghost predicate Ok(p: Params) {
      pos <= end && (overflow <==> p.cap < Buf())
    }

    function Frames(p: Params): nat
      requires pos <= end && 0 < p.channels
    {
      Over(Buf(), p.channels)
    }
  }

  const EMPTY := Meter(0, 0, false, false, 0, 0, 0, 0, 0)

  lemma EmptyOk(p: Params)
    ensures EMPTY.Ok(p) && EMPTY.Buffered(p) == 0
  {
    var cap: nat := p.cap;
    assert !EMPTY.overflow && !(cap < EMPTY.Buf());
  }

  /** Deliver the floats from `start` up to `stop`, then repeat their last frame or fall silent. */
  datatype Plan = Plan(next: Meter, start: nat, stop: nat, repeats: bool, ok: bool)

  // ---- Write ------------------------------------------------------------------

  /** Only the end of an oversized write is accepted. */
  function Kept(p: Params, src: seq<Sample>): seq<Sample> {
    RingBuffers.LastN(src, p.cap)
  }

  function Write(p: Params, m: Meter, kept: nat): Meter {
    if kept == 0 then m else m.(end := m.end + kept, overflow := m.Buffered(p) + kept > p.cap)
  }

  // ---- Read -------------------------------------------------------------------

  /** Jump so that exactly the target fill is left. */
  function SnapTo(p: Params, m: Meter): Meter
    requires p.Snap() <= m.end
  {
    m.(pos := m.end - p.Snap(), overflow := false, overruns := m.overruns + 1)
  }

  lemma SnapFits(p: Params)
    requires p.Sane()
    ensures 0 < p.channels <= p.Snap() <= p.cap
  {
    TimesMonotone(p.centre, p.max, p.channels);
    TimesMonotone(1, p.centre, p.channels);
  }

  function AfterOverflow(p: Params, m: Meter): (r: Meter)
    requires p.Sane() && m.Ok(p)
    ensures r.Ok(p) && !r.overflow
  {
    SnapFits(p);
    if m.overflow then SnapTo(p, m) else m
  }

  /** FILLING gives way to PLAYING at the low mark. */
  predicate Plays(p: Params, m: Meter)
    requires m.pos <= m.end && 0 < p.channels
  {
    m.playing || m.Frames(p) >= p.low
  }

  function Started(m: Meter): Meter {
    if m.playing then m else m.(playing := true, counter := 0)
  }

  function Limited(p: Params, m: Meter): (r: Meter)
    requires p.Sane() && m.Ok(p) && !m.overflow
    ensures r.Ok(p) && !r.overflow
  {
    OverAtLeast(m.Buf(), p.centre, p.channels);
    SnapFits(p);
    if m.Frames(p) > p.max then SnapTo(p, m) else m
  }

  function Plain(m: Meter, n: nat): Plan
    requires m.pos <= m.end
  {
    var stop := m.pos + Min(n, m.Buf());
    Plan(m.(pos := stop), m.pos, stop, false, true)
  }

  /** Consumes one extra frame. */
  function Drop(p: Params, m: Meter, n: nat): Plan
    requires m.pos <= m.end
  {
    Plan(m.(pos := m.pos + Min(n + p.channels, m.Buf()), dropped := m.dropped + 1),
         m.pos, m.pos + Min(n, m.Buf()), false, true)
  }

  /** Consumes one frame less and repeats the last one in its place. */
  function Insert(p: Params, m: Meter, n: nat): Plan
    requires m.pos <= m.end && 0 < p.channels <= m.Buf()
  {
    var stop := m.pos + Min(Max(n - p.channels, p.channels), m.Buf());
    Plan(m.(pos := stop, inserted := m.inserted + 1), m.pos, stop, true, true)
  }

  /** The read whose turn it is to correct the drift. */
  function Corrected(p: Params, m: Meter, n: nat): Plan
    requires m.pos <= m.end && 0 < p.channels <= m.Buf()
  {
    if m.Frames(p) < p.low then Insert(p, m, n)
    else if m.Frames(p) > p.high then Drop(p, m, n)
    else Plain(m, n)
  }

  /** Corrections come at most every `interval` reads. */
  function ReadPaced(p: Params, m: Meter, n: nat): (plan: Plan)
    requires m.pos <= m.end && 0 < p.channels <= m.Buf()
    ensures plan.ok
  {
    if m.counter + 1 < p.interval then Plain(m.(counter := m.counter + 1), n) else Corrected(p, m.(counter := 0), n)
  }

  function ReadPlaying(p: Params, m: Meter, n: nat): Plan
    requires p.Sane() && m.Ok(p) && !m.overflow
  {
    if m.Frames(p) < p.min then
      Plan(m.(playing := false, underruns := m.underruns + 1), m.pos, m.pos, false, false)
    else
      ReadPaced(p, m, n)
  }

  function ReadSome(p: Params, m: Meter, n: nat): Plan
    requires p.Sane() && m.Ok(p) && !m.overflow
  {
    if Plays(p, m) then ReadPlaying(p, Limited(p, Started(m)), n) else Plan(m, m.pos, m.pos, false, false)
  }

  function Read(p: Params, m: Meter, n: nat): Plan
    requires p.Sane() && m.Ok(p)
  {
    if n == 0 then Plan(m, m.pos, m.pos, false, true) else ReadSome(p, AfterOverflow(p, m), n)
  }

  // ---- What the caller gets -----------------------------------------------------

  /** `n` floats of the frame over and over. */
  function Repeats(frame: seq<Sample>, n: nat): (r: seq<Sample>)
    requires frame != []
    ensures |r| == n && forall i :: 0 <= i < n ==> r[i] == frame[Slot(i, |frame|)]
  {
    seq(n, i requires 0 <= i < n => frame[Slot(i, |frame|)])
  }

  /** The piece, then its last frame over and over, `n` floats in all. */
  function Extended(piece: seq<Sample>, channels: nat, n: nat): (out: seq<Sample>)
    requires 0 < channels <= |piece| <= n
    ensures |out| == n
  {
    piece + Repeats(piece[|piece| - channels..], n - |piece|)
  }

  /** The caller's `n` floats: the planned piece, then copies of its last frame or silence. */
  function Output(stream: seq<Sample>, channels: nat, plan: Plan, n: nat): (out: seq<Sample>)
    requires plan.start <= plan.stop <= |stream| && plan.stop - plan.start <= n
    requires plan.repeats ==> 0 < channels <= plan.stop - plan.start
    ensures |out| == n
  {
    var piece := stream[plan.start..plan.stop];
    if plan.repeats then Extended(piece, channels, n) else piece + Zeros(n - |piece|)
  }
}
