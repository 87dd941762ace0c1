/** What every read does to the reader's position, the fill and the pacing of corrections. */
module JitterLaws {
  import opened Arith
  import opened Ring
  import opened JitterModel

  // ---- One read -----------------------------------------------------------------

  /** The fill a snap leaves is inside the playing range. */
  lemma SnapPlays(p: Params, m: Meter)
    requires p.Sane() && m.pos <= m.end && m.Buf() == p.Snap()
    ensures m.Frames(p) == p.centre
  {
    OverTimes(p.centre, p.channels);
  }

  lemma LimitedMovesOn(p: Params, m: Meter)
    requires p.Sane() && m.Ok(p) && !m.overflow
    ensures var b := Limited(p, m);
      && m.pos <= b.pos && b.Frames(p) <= p.max
      && (b == m || (b == SnapTo(p, m) && b.Frames(p) == p.centre))
  {
    OverAtLeast(m.Buf(), p.centre, p.channels);
    SnapFits(p);
    if m.Frames(p) > p.max {
      SnapPlays(p, Limited(p, m));
    }
  }

  lemma OverflowMovesOn(p: Params, m: Meter)
    requires p.Sane() && m.Ok(p)
    ensures var a := AfterOverflow(p, m);
      && m.pos <= a.pos && a.end == m.end
      && (if m.overflow then a == SnapTo(p, m) && a.Frames(p) == p.centre else a == m)
  {
    SnapFits(p);
    if m.overflow {
      SnapPlays(p, AfterOverflow(p, m));
    }
  }

  /** A plan that stays in order: nothing before `from`, nothing past what is accepted. */
  ghost predicate InOrder(p: Params, from: nat, end: nat, n: nat, plan: Plan) {
    && from <= plan.start <= plan.stop <= plan.next.pos <= end == plan.next.end
    && plan.stop - plan.start <= n && plan.next.pos <= plan.start + n + p.channels
    && (plan.repeats ==> 0 < p.channels <= plan.stop - plan.start)
    && (!plan.ok ==> plan.start == plan.stop == plan.next.pos && !plan.repeats)
    && !plan.next.overflow
  }

  lemma FrameThere(p: Params, m: Meter)
    requires p.Sane() && m.pos <= m.end && m.Frames(p) >= p.min
    ensures p.channels <= m.Buf()
  {
    OverAtLeast(m.Buf(), 1, p.channels);
  }

  lemma PlayingInOrder(p: Params, m: Meter, n: nat)
    requires p.Sane() && m.Ok(p) && !m.overflow && p.channels <= n
    ensures InOrder(p, m.pos, m.end, n, ReadPlaying(p, m, n)) && ReadPlaying(p, m, n).start == m.pos
    ensures m.Frames(p) >= p.min ==> ReadPlaying(p, m, n).ok
  {
    if m.Frames(p) >= p.min {
      FrameThere(p, m);
    }
  }

  lemma SomeInOrder(p: Params, m: Meter, n: nat)
    requires p.Sane() && m.Ok(p) && !m.overflow && p.channels <= n
    ensures var r := ReadSome(p, m, n);
      && InOrder(p, m.pos, m.end, n, r) && Over(m.end - r.start, p.channels) <= p.max
      && (r.start == m.pos || r.start == m.end - p.Snap())
      && (!r.ok ==> r.start == m.pos && (m.playing || m.Frames(p) < p.low))
  {
    if Plays(p, m) {
      LimitedMovesOn(p, Started(m));
      PlayingInOrder(p, Limited(p, Started(m)), n);
    }
  }

  /**
   * A read delivers a piece that starts at or after the reader's position; it consumes at most a frame more than
   * was asked for. A false read consumes nothing, skips nothing, and never follows an overflow.
   */
  lemma ReadInOrder(p: Params, m: Meter, n: nat)
    requires p.Sane() && m.Ok(p) && n > 0 && Slot(n, p.channels) == 0
    ensures var r := Read(p, m, n);
      && InOrder(p, m.pos, m.end, n, r) && r.next.Ok(p)
      && (r.start == m.pos || r.start == m.end - p.Snap())
      && (!r.ok ==> r.start == m.pos && !m.overflow)
  {
    OverflowMovesOn(p, m);
    SnapFits(p);
    SomeInOrder(p, AfterOverflow(p, m), n);
  }

  // ---- Fill bound ---------------------------------------------------------------

  lemma FramesMonotone(a: nat, b: nat, channels: nat)
    requires 0 < channels && a <= b
    ensures Over(a, channels) <= Over(b, channels)
  {
    OverAtLeast(a, Over(a, channels), channels);
    OverAtLeast(b, Over(a, channels), channels);
  }

  /** After every read that asks for anything, at most `max` frames are buffered. */
  lemma ReadBoundsFill(p: Params, m: Meter, n: nat)
    requires p.Sane() && m.Ok(p) && n > 0 && Slot(n, p.channels) == 0
    ensures var k := Read(p, m, n).next; k.Ok(p) && k.Frames(p) <= p.max
  {
    hide Over, ReadSome;
    var r := Read(p, m, n);
    ReadInOrder(p, m, n);
    SomeInOrder(p, AfterOverflow(p, m), n);
    FramesMonotone(m.end - r.next.pos, m.end - r.start, p.channels);
  }

  // ---- Pacing -------------------------------------------------------------------

  /** interval x (samples dropped + samples inserted) + correction counter. */
  function Paced(p: Params, m: Meter): nat {
    Times(m.dropped + m.inserted, p.interval) + m.counter
  }

  lemma PlayingPaces(p: Params, m: Meter, n: nat)
    requires p.Sane() && m.Ok(p) && !m.overflow
    ensures var r := ReadPlaying(p, m, n); Paced(p, r.next) <= Paced(p, m) + (if r.ok then 1 else 0)
  {
    if m.Frames(p) >= p.min {
      FrameThere(p, m);
    }
  }

  /** A correction uses up `interval` reads' worth of counting. */
  lemma ReadPaces(p: Params, m: Meter, n: nat)
    requires p.Sane() && m.Ok(p)
    ensures var r := Read(p, m, n); Paced(p, r.next) <= Paced(p, m) + (if r.ok then 1 else 0)
  {
    var a := AfterOverflow(p, m);
    OverflowMovesOn(p, m);
    if Plays(p, a) {
      LimitedMovesOn(p, Started(a));
      PlayingPaces(p, Limited(p, Started(a)), n);
    }
  }

  /** Reads between corrections; an interval of 0 corrects on every read, like 1. */
  function Turn(p: Params): nat {
    Max(p.interval, 1)
  }

  lemma PlayingCounts(p: Params, m: Meter, n: nat)
    requires p.Sane() && m.Ok(p) && !m.overflow && m.counter < Turn(p)
    ensures ReadPlaying(p, m, n).next.counter < Turn(p)
  {
    if m.Frames(p) >= p.min {
      FrameThere(p, m);
    }
  }

  /** The counter always stays below the interval. */
  lemma ReadCounts(p: Params, m: Meter, n: nat)
    requires p.Sane() && m.Ok(p) && m.counter < Turn(p)
    ensures Read(p, m, n).next.counter < Turn(p)
  {
    var a := AfterOverflow(p, m);
    if Plays(p, a) {
      PlayingCounts(p, Limited(p, Started(a)), n);
    }
  }

  // ---- Channels -----------------------------------------------------------------

  /** Whole frames may be taken off a position without moving it within its frame. */
  lemma {:induction false} SlotPast(a: nat, s: nat, c: nat)
    requires 0 < c && a <= s && Slot(a, c) == 0
    ensures Slot(s, c) == Slot(s - a, c)
    decreases a
  {
    if a >= c {
      SlotPast(a - c, s - c, c);
    }
  }

  lemma {:induction false} SlotTimes(k: nat, c: nat)
    requires 0 < c
    ensures Slot(Times(k, c), c) == 0
  {
    if k > 0 {
      SlotTimes(k - 1, c);
    }
  }

  /** The reader and the end of the stream both sit on frame boundaries. */
  ghost predicate OnFrames(p: Params, m: Meter)
    requires 0 < p.channels
  {
    Slot(m.end, p.channels) == 0 && Slot(m.pos, p.channels) == 0
  }

  lemma SnapOnFrames(p: Params, m: Meter)
    requires p.Sane() && p.Snap() <= m.end && OnFrames(p, m)
    ensures OnFrames(p, SnapTo(p, m))
  {
    SlotTimes(p.centre, p.channels);
    SlotPast(p.Snap(), m.end, p.channels);
  }

  /** The amounts a read may take are whole frames. */
  predicate Takes(p: Params, m: Meter, n: nat, k: nat) {
    || k == Min(n, m.Buf())
    || k == Min(n + p.channels, m.Buf())
    || k == Min(Max(n - p.channels, p.channels), m.Buf())
  }

  lemma FrameSlot(c: nat)
    requires 0 < c
    ensures Slot(c, c) == 0
  {
  }

  lemma TakesFrames(p: Params, m: Meter, n: nat, k: nat)
    requires 0 < p.channels <= n && m.pos <= m.end && OnFrames(p, m) && Slot(n, p.channels) == 0
    requires Takes(p, m, n, k)
    ensures Slot(k, p.channels) == 0
  {
    FrameSlot(p.channels);
    hide Slot;
    if k == m.Buf() {
      SlotPast(m.pos, m.end, p.channels);
    } else if k == n + p.channels {
      SlotPast(n, n + p.channels, p.channels);
    } else if k == n - p.channels {
      SlotPast(p.channels, n, p.channels);
    }
  }

  lemma PlayingTakes(p: Params, m: Meter, n: nat) returns (next: Meter)
    requires p.Sane() && m.Ok(p) && !m.overflow
    ensures next == ReadPlaying(p, m, n).next && next.end == m.end && m.pos <= next.pos
    ensures next.pos == m.pos || Takes(p, m, n, next.pos - m.pos)
  {
    next := ReadPlaying(p, m, n).next;
    if m.Frames(p) >= p.min {
      FrameThere(p, m);
    }
  }

  lemma TakingOnFrames(p: Params, m: Meter, n: nat, next: Meter)
    requires 0 < p.channels <= n && m.pos <= m.end == next.end && OnFrames(p, m) && Slot(n, p.channels) == 0
    requires next.pos == m.pos || (m.pos <= next.pos && Takes(p, m, n, next.pos - m.pos))
    ensures OnFrames(p, next)
  {
    if next.pos > m.pos {
      TakesFrames(p, m, n, next.pos - m.pos);
      SlotPast(m.pos, next.pos, p.channels);
    }
  }

  /** From frame boundaries, a read of whole frames starts on one and ends on one. */
  lemma ReadOnFrames(p: Params, m: Meter, n: nat)
    requires p.Sane() && m.Ok(p) && OnFrames(p, m) && n > 0 && Slot(n, p.channels) == 0
    ensures Slot(Read(p, m, n).start, p.channels) == 0 && OnFrames(p, Read(p, m, n).next)
  {
    var a := AfterOverflow(p, m);
    OverflowMovesOn(p, m);
    SnapFits(p);
    if m.overflow {
      SnapOnFrames(p, m);
    }
    if Plays(p, a) {
      var b := Limited(p, Started(a));
      LimitedMovesOn(p, Started(a));
      if b != Started(a) {
        SnapOnFrames(p, Started(a));
      }
      var next := PlayingTakes(p, b, n);
      TakingOnFrames(p, b, n, next);
      PlayingInOrder(p, b, n);
    }
  }
}
