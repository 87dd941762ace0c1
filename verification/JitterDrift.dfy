/** Drift correction under a steady load: each read of n frames is followed by a write of n frames. */
module JitterDrift {
  import opened Arith
  import opened JitterModel
  import opened JitterLaws

  /** How many frames the fill is outside the target window. */
  function Distance(p: Params, f: nat): nat {
    if f < p.low then p.low - f else if f > p.high then f - p.high else 0
  }

  /** PLAYING with `f` whole frames buffered, in the allowed range and more than the load's `n`. */
  ghost predicate Steady(p: Params, m: Meter, n: nat, f: nat) {
    && p.Sane() && m.Ok(p) && m.playing && !m.overflow
    && m.Buf() == Times(f, p.channels)
    && p.min <= f <= p.max && 2 <= n < p.low && n < f
    && m.counter < Turn(p)
  }

  function Load(p: Params, n: nat): nat {
    Times(n, p.channels)
  }

  lemma {:induction false} TimesAdd(a: nat, b: nat, c: nat)
    ensures Times(a + b, c) == Times(a, c) + Times(b, c)
  {
    if b > 0 {
      TimesAdd(a, b - 1, c);
    }
  }

  lemma TimesOne(c: nat)
    ensures Times(1, c) == c
  {
    assert Times(0, c) == 0;
  }

  /** What the corrections of one cycle make of the fill. */
  function Nudged(p: Params, m: Meter, f: nat): nat {
    if m.counter + 1 < p.interval then f
    else if f < p.low then f + 1
    else if f > p.high then f - 1
    else f
  }

  lemma SteadySizes(p: Params, m: Meter, n: nat, f: nat)
    requires Steady(p, m, n, f)
    ensures var c, size := p.channels, Load(p, n);
      && 2 * c <= size && size + c <= m.Buf() && m.Frames(p) == f
      && Times(f - n, c) == m.Buf() - size
      && Times(f - 1 - n, c) == m.Buf() - size - c
      && Times(f + 1 - n, c) == m.Buf() - size + c
    ensures Read(p, m, Load(p, n)) == ReadPlaying(p, m, Load(p, n))
  {
    var c := p.channels;
    OverTimes(f, c);
    TimesOne(c);
    TimesAdd(n - 2, 1, c);
    TimesAdd(n - 1, 1, c);
    TimesAdd(n, f - n, c);
    TimesAdd(f - 1 - n, 1, c);
    TimesAdd(f - n, 1, c);
  }

  /** The read of a cycle: no snap, no underrun, and n frames taken, one more or one less when a correction is due. */
  lemma SteadyRead(p: Params, m: Meter, n: nat, f: nat)
    requires Steady(p, m, n, f)
    ensures var r, g := Read(p, m, Load(p, n)).next, Nudged(p, m, f);
      && g >= n && r.Buf() == Times(g - n, p.channels)
      && r == m.(pos := r.pos, counter := if m.counter + 1 < p.interval then m.counter + 1 else 0,
                 dropped := m.dropped + (if g < f then 1 else 0),
                 inserted := m.inserted + (if g > f then 1 else 0))
  {
    SteadySizes(p, m, n, f);
  }

  /** One read of n frames, then one write of n frames. */
  function Cycle(p: Params, m: Meter, n: nat): Meter
    requires p.Sane() && m.Ok(p)
  {
    Write(p, Read(p, m, Load(p, n)).next, Load(p, n))
  }

  /** What one cycle of the load makes of a steady meter. */
  ghost predicate Nudges(p: Params, n: nat, m: Meter, f: nat, r: Meter) {
    var g := Nudged(p, m, f);
    && Steady(p, r, n, g)
    && r == m.(end := r.end, pos := r.pos, counter := if m.counter + 1 < p.interval then m.counter + 1 else 0,
               dropped := m.dropped + (if g < f then 1 else 0),
               inserted := m.inserted + (if g > f then 1 else 0))
  }

  lemma CycleNudges(p: Params, m: Meter, n: nat, f: nat)
    requires Steady(p, m, n, f)
    ensures Nudges(p, n, m, f, Cycle(p, m, n))
  {
    var g := Nudged(p, m, f);
    SteadyRead(p, m, n, f);
    SteadySizes(p, m, n, f);
    TimesAdd(g - n, n, p.channels);
    TimesMonotone(g, p.max, p.channels);
  }

  /** `k` steps from `m`. */
  ghost function Iterate(step: Meter -> Meter, m: Meter, k: nat): Meter {
    if k == 0 then m else step(Iterate(step, m, k - 1))
  }

  /** The load's cycle, as a step. */
  ghost function CycleOf(p: Params, n: nat): Meter -> Meter {
    (m: Meter) => if p.Sane() && m.Ok(p) then Cycle(p, m, n) else m
  }

  /** Reads left until the fill is inside the window; 0 once it is. */
  function Remaining(p: Params, m: Meter, f: nat): int {
    if Distance(p, f) == 0 then 0 else Times(Distance(p, f), Turn(p)) - m.counter
  }

  /** The account of `k` cycles that led from fill `f` to fill `g`. */
  ghost predicate After(p: Params, m: Meter, f: nat, k: nat, r: Meter, g: nat) {
    && r.underruns == m.underruns && r.overruns == m.overruns
    && Distance(p, g) + r.dropped + r.inserted == Distance(p, f) + m.dropped + m.inserted
    && Remaining(p, r, g) <= Max(Times(Distance(p, f), Turn(p)) - k, 0)
  }

  lemma AfterOneMore(p: Params, m: Meter, f: nat, k: nat, r: Meter, g: nat, r': Meter, n: nat)
    requires k > 0 && Steady(p, r, n, g) && After(p, m, f, k - 1, r, g) && Nudges(p, n, r, g, r')
    ensures After(p, m, f, k, r', Nudged(p, r, g))
  {
    var g' := Nudged(p, r, g);
    TimesOne(Turn(p));
    TimesMonotone(1, Max(Distance(p, g'), 1), Turn(p));
  }

  lemma {:induction false} IterateAccount(p: Params, step: Meter -> Meter, m: Meter, n: nat, f: nat, k: nat)
      returns (g: nat)
    requires Steady(p, m, n, f)
    requires forall r, h: nat {:trigger Nudges(p, n, r, h, step(r))} ::
               Steady(p, r, n, h) ==> Nudges(p, n, r, h, step(r))
    ensures Steady(p, Iterate(step, m, k), n, g) && After(p, m, f, k, Iterate(step, m, k), g)
  {
    if k == 0 {
      g := f;
    } else {
      g := IterateAccount(p, step, m, n, f, k - 1);
      var r := Iterate(step, m, k - 1);
      assert Nudges(p, n, r, g, step(r));
      AfterOneMore(p, m, f, k, r, g, step(r), n);
      g := Nudged(p, r, g);
    }
  }

  lemma InsideWindow(p: Params, m: Meter, f: nat, k: nat, r: Meter, g: nat, n: nat)
    requires Steady(p, r, n, g) && After(p, m, f, k, r, g)
    ensures r.Frames(p) == g
    ensures k >= Times(Distance(p, f), Turn(p)) ==> p.low <= g <= p.high
  {
    OverTimes(g, p.channels);
    TimesOne(Turn(p));
    TimesMonotone(1, Max(Distance(p, g), 1), Turn(p));
  }

  /**
   * Drift convergence. Under the load the fill seen at reads is inside the target window after at most
   * interval x distance reads and stays there; the corrections made are exactly the distance, so none comes
   * after that; and no read ever snaps or underruns.
   */
  lemma {:induction false} DriftConverges(p: Params, m: Meter, n: nat, f: nat, k: nat)
    requires Steady(p, m, n, f)
    ensures var r := Iterate(CycleOf(p, n), m, k);
      && r.pos <= r.end && r.playing && r.underruns == m.underruns && r.overruns == m.overruns
      && Distance(p, r.Frames(p)) + r.dropped + r.inserted == Distance(p, f) + m.dropped + m.inserted
      && (k >= Times(Distance(p, f), Turn(p)) ==> p.low <= r.Frames(p) <= p.high)
  {
    var step := CycleOf(p, n);
    forall r, h: nat | Steady(p, r, n, h)
      ensures Nudges(p, n, r, h, step(r))
    {
      CycleNudges(p, r, n, h);
    }
    var g := IterateAccount(p, step, m, n, f, k);
    InsideWindow(p, m, f, k, Iterate(step, m, k), g, n);
  }

  // ---- Reads of a single frame -----------------------------------------------------------

  /** PLAYING below the window with `f` whole frames buffered. */
  ghost predicate BelowWindow(p: Params, m: Meter, f: nat) {
    && p.Sane() && m.Ok(p) && m.playing && !m.overflow
    && m.Buf() == Times(f, p.channels) && p.min <= f < p.low
    && m.counter < Turn(p)
  }

  /** An insertion into a one-frame read has no room: it delivers and consumes what a plain read would. */
  lemma OneFrameInsertion(p: Params, m: Meter)
    requires 0 < p.channels <= m.Buf() && m.pos <= m.end
    ensures var i, plain := Insert(p, m, p.channels), Plain(m, p.channels);
      && i.start == plain.start && i.stop == plain.stop && i.next == plain.next.(inserted := m.inserted + 1)
  {
  }

  /** A cycle of one frame moves both ends on by a frame; when its turn comes it counts an insertion. */
  ghost predicate OneFrameOn(p: Params, m: Meter, r: Meter) {
    var due := m.counter + 1 >= p.interval;
    r == m.(end := m.end + p.channels, pos := m.pos + p.channels, counter := if due then 0 else m.counter + 1,
            inserted := m.inserted + if due then 1 else 0)
  }

  lemma OneFrameRead(p: Params, m: Meter, f: nat)
    requires BelowWindow(p, m, f)
    ensures OneFrameOn(p, m, Read(p, m, p.channels).next.(end := m.end + p.channels))
    ensures Read(p, m, p.channels).next.end == m.end
  {
    OverTimes(f, p.channels);
    FrameThere(p, m);
    OneFrameInsertion(p, m.(counter := 0));
  }

  lemma OneFrameCycle(p: Params, m: Meter, f: nat)
    requires BelowWindow(p, m, f)
    ensures OneFrameOn(p, m, Cycle(p, m, 1)) && BelowWindow(p, Cycle(p, m, 1), f)
  {
    hide Read;
    TimesOne(p.channels);
    TimesMonotone(f, p.max, p.channels);
    OneFrameRead(p, m, f);
  }

  lemma OneFrameCounts(p: Params, m: Meter, r: Meter)
    requires m.counter < Turn(p) && OneFrameOn(p, m, r)
    ensures Times(r.inserted, Turn(p)) + r.counter == Times(m.inserted, Turn(p)) + m.counter + 1
  {
  }

  /**
   * Why the load needs two frames a read: with one, a fill below the window stays where it is for ever, while
   * samples_inserted goes on counting a correction every interval reads.
   */
  lemma {:induction false} OneFrameNeverConverges(p: Params, m: Meter, f: nat, k: nat)
    requires BelowWindow(p, m, f)
    ensures var r := Iterate(CycleOf(p, 1), m, k);
      && r.pos <= r.end && r.Frames(p) == f < p.low && BelowWindow(p, r, f)
      && Times(r.inserted, Turn(p)) + r.counter == Times(m.inserted, Turn(p)) + m.counter + k
  {
    hide Cycle;
    OverTimes(f, p.channels);
    if k > 0 {
      OneFrameNeverConverges(p, m, f, k - 1);
      var r := Iterate(CycleOf(p, 1), m, k - 1);
      OneFrameCycle(p, r, f);
      OneFrameCounts(p, r, Cycle(p, r, 1));
    }
  }
}
