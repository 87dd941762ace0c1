/** What a read answers and does, decided by the fill it finds. */
module JitterAnswers {
  import opened Bytes
  import opened Arith
  import opened Ring
  import opened JitterModel
  import opened JitterLaws
  import opened JitterRuns

  // ---- One read -----------------------------------------------------------------

  /** A read of whole frames, and something to read. */
  ghost predicate Asks(p: Params, m: Meter, n: nat) {
    p.Sane() && m.Ok(p) && n > 0 && Slot(n, p.channels) == 0
  }

  /** A FILLING buffer starts to play, and the read that starts it delivers audio, exactly at the low mark. */
  lemma FillingAnswers(p: Params, m: Meter, n: nat)
    requires Asks(p, m, n) && !m.playing && !m.overflow
    ensures Read(p, m, n).ok <==> m.Frames(p) >= p.low
    ensures Read(p, m, n).next.playing <==> m.Frames(p) >= p.low
    ensures Read(p, m, n).next.underruns == m.underruns
  {
    if m.Frames(p) >= p.low {
      LimitedMovesOn(p, Started(m));
      FrameThere(p, Limited(p, Started(m)));
    }
  }

  /** A PLAYING buffer underruns, answers false and goes back to FILLING exactly below the minimum. */
  lemma PlayingAnswers(p: Params, m: Meter, n: nat)
    requires Asks(p, m, n) && m.playing && !m.overflow
    ensures Read(p, m, n).ok <==> m.Frames(p) >= p.min
    ensures Read(p, m, n).next.playing <==> m.Frames(p) >= p.min
    ensures Read(p, m, n).next.underruns == m.underruns + if m.Frames(p) < p.min then 1 else 0
  {
    LimitedMovesOn(p, m);
    if m.Frames(p) >= p.min {
      FrameThere(p, Limited(p, m));
    }
  }

  /** After an overflow there is always enough to play. */
  lemma OverflowAnswers(p: Params, m: Meter, n: nat)
    requires Asks(p, m, n) && m.overflow
    ensures Read(p, m, n).ok && Read(p, m, n).next.playing && Read(p, m, n).next.underruns == m.underruns
  {
    OverflowMovesOn(p, m);
    var a := AfterOverflow(p, m);
    LimitedMovesOn(p, Started(a));
    FrameThere(p, Limited(p, Started(a)));
  }

  /** The read snaps: the writer overflowed, or more than the maximum is buffered. */
  predicate Snaps(p: Params, m: Meter)
    requires m.pos <= m.end && 0 < p.channels
  {
    m.overflow || m.Frames(p) > p.max
  }

  lemma FrameThereIf(p: Params, m: Meter)
    requires p.Sane() && m.pos <= m.end
    ensures m.Frames(p) >= p.min ==> p.channels <= m.Buf()
  {
    if m.Frames(p) >= p.min {
      FrameThere(p, m);
    }
  }

  /** The piece starts at the reader's position, or at the target fill behind the writer exactly when the read snaps. */
  lemma SnapExactly(p: Params, m: Meter, n: nat)
    requires Asks(p, m, n)
    ensures Read(p, m, n).start == if Snaps(p, m) then m.end - p.Snap() else m.pos
    ensures Read(p, m, n).next.overruns == m.overruns + if Snaps(p, m) then 1 else 0
  {
    hide Over;
    SnapFits(p);
    OverflowMovesOn(p, m);
    var a := AfterOverflow(p, m);
    if Plays(p, a) {
      LimitedMovesOn(p, Started(a));
      FrameThereIf(p, Limited(p, Started(a)));
    }
  }

  /** The fill and the floats a read works with, after any snap. */
  function FillUsed(p: Params, m: Meter): nat
    requires m.pos <= m.end && 0 < p.channels
  {
    if Snaps(p, m) then p.centre else m.Frames(p)
  }

  function FloatsUsed(p: Params, m: Meter): nat
    requires m.pos <= m.end && 0 < p.channels
  {
    if Snaps(p, m) then p.Snap() else m.Buf()
  }

  /** Reads answered since the last one whose turn it was, this one included; starting to play starts the count. */
  function Count(m: Meter): nat {
    (if m.playing then m.counter else 0) + 1
  }

  /** What a read that answers true takes, and what its correction, if any, does to it. */
  ghost predicate Fulfils(p: Params, m: Meter, n: nat, r: Plan)
    requires m.pos <= m.end && 0 < p.channels
  {
    var fill, buf, due := FillUsed(p, m), FloatsUsed(p, m), Count(m) >= p.interval;
    var inserts, drops := due && fill < p.low, due && fill > p.high;
    && r.repeats == inserts
    && r.stop - r.start == (if inserts then Min(Max(n - p.channels, p.channels), buf) else Min(n, buf))
    && r.next.pos == (if drops then r.start + Min(n + p.channels, buf) else r.stop)
    && r.next.counter == (if due then 0 else Count(m))
    && r.next.inserted == m.inserted + (if inserts then 1 else 0)
    && r.next.dropped == m.dropped + (if drops then 1 else 0)
  }

  lemma PlayingFulfils(p: Params, m: Meter, n: nat)
    requires p.Sane() && m.Ok(p) && !m.overflow && m.playing && p.min <= m.Frames(p) <= p.max
    ensures Fulfils(p, m, n, ReadPlaying(p, m, n))
  {
    FrameThere(p, m);
  }

  lemma OkHasMinimum(p: Params, m: Meter, n: nat)
    requires p.Sane() && m.Ok(p) && !m.overflow && ReadPlaying(p, m, n).ok
    ensures m.Frames(p) >= p.min
  {
  }

  /** One frame less and a repeated frame below the window, one frame more above it, and only when the turn comes. */
  lemma DeliversExactly(p: Params, m: Meter, n: nat)
    requires Asks(p, m, n) && Read(p, m, n).ok
    ensures Fulfils(p, m, n, Read(p, m, n))
  {
    hide Over;
    SnapFits(p);
    OverflowMovesOn(p, m);
    var a := AfterOverflow(p, m);
    var b := Limited(p, Started(a));
    LimitedMovesOn(p, Started(a));
    assert Read(p, m, n) == ReadPlaying(p, b, n);
    assert b.Frames(p) == FillUsed(p, m) && b.Buf() == FloatsUsed(p, m) && !Snaps(p, b);
    assert Count(b) == Count(m);
    OkHasMinimum(p, b, n);
    PlayingFulfils(p, b, n);
  }

  lemma PieceFirst(piece: seq<Sample>, pad: seq<Sample>, j: nat)
    requires j < |piece + pad|
    ensures (piece + pad)[j] == if j < |piece| then piece[j] else pad[j - |piece|]
  {
  }

  lemma RepeatedAt(piece: seq<Sample>, channels: nat, n: nat, j: nat)
    requires 0 < channels <= |piece| <= n && j < n
    ensures Extended(piece, channels, n)[j]
            == if j < |piece| then piece[j] else piece[|piece| - channels + Slot(j - |piece|, channels)]
  {
    hide Slot;
    PieceFirst(piece, Repeats(piece[|piece| - channels..], n - |piece|), j);
  }

  /** Behind the delivered piece an insertion repeats its last frame channel by channel; any other read is silent. */
  lemma PadsExactly(stream: seq<Sample>, channels: nat, plan: Plan, n: nat, j: nat)
    requires plan.start <= plan.stop <= |stream| && plan.stop - plan.start <= n && j < n
    requires plan.repeats ==> 0 < channels <= plan.stop - plan.start
    ensures Output(stream, channels, plan, n)[j] ==
            var len := plan.stop - plan.start;
            if j < len then stream[plan.start + j]
            else if plan.repeats then stream[plan.stop - channels + Slot(j - len, channels)]
            else SILENCE
  {
    hide Slot, Repeats, Extended;
    var piece := stream[plan.start..plan.stop];
    if plan.repeats {
      RepeatedAt(piece, channels, n, j);
    } else {
      PieceFirst(piece, Zeros(n - |piece|), j);
    }
  }

  // ---- Runs -----------------------------------------------------------------------

  /** The answer of the read that ends the run. */
  function Answer(p: Params, events: seq<Event>): bool
    requires p.Sane() && events != [] && forall e :: e in events ==> Framed(p, e)
  {
    var returned := Run(p, events).returned;
    returned != [] && returned[|returned| - 1].ok
  }

  /** What the last read that asked for anything answered; nothing has been answered at the start. */
  function LastAnswer(p: Params, events: seq<Event>): bool
    requires p.Sane() && forall e :: e in events ==> Framed(p, e)
  {
    if events == [] then false
    else
      var last := events[|events| - 1];
      if last.Asked? && last.n > 0 then Answer(p, events) else LastAnswer(p, events[..|events| - 1])
  }

  lemma StepAnswer(p: Params, l: Ledger, n: nat)
    requires Good(p, l) && Slot(n, p.channels) == 0
    ensures var r := Step(p, l, Asked(n));
      r.returned != [] && r.returned[|r.returned| - 1].ok == Read(p, l.m, n).ok && r.m == Read(p, l.m, n).next
  {
    hide Read, Output;
  }

  lemma AnswerPlays(p: Params, m: Meter, n: nat)
    requires Asks(p, m, n)
    ensures Read(p, m, n).next.playing == Read(p, m, n).ok
  {
    hide Read;
    if m.overflow {
      OverflowAnswers(p, m, n);
    } else if m.playing {
      PlayingAnswers(p, m, n);
    } else {
      FillingAnswers(p, m, n);
    }
  }

  /** Asking for nothing succeeds and changes nothing. */
  lemma ZeroRead(p: Params, m: Meter)
    requires p.Sane() && m.Ok(p)
    ensures Read(p, m, 0).ok && Read(p, m, 0).next == m
  {
  }

  lemma WritePlays(p: Params, l: Ledger, e: Event)
    requires Good(p, l) && Framed(p, e) && e.Wrote?
    ensures Step(p, l, e).m.playing == l.m.playing
  {
  }

  /** PLAYING is exactly having answered true last. */
  lemma {:induction false} PlayingIsLastAnswer(p: Params, events: seq<Event>)
    requires p.Sane() && forall e :: e in events ==> Framed(p, e)
    ensures Run(p, events).m.playing <==> LastAnswer(p, events)
  {
    hide Read, Step;
    if events != [] {
      var init, e := events[..|events| - 1], events[|events| - 1];
      PlayingIsLastAnswer(p, init);
      assert e in events;
      var l := Run(p, init);
      if e.Asked? {
        StepAnswer(p, l, e.n);
        if e.n > 0 {
          AnswerPlays(p, l.m, e.n);
        } else {
          ZeroRead(p, l.m);
        }
      } else {
        WritePlays(p, l, e);
      }
    }
  }

  /**
   * Over every run the answer of each read is fixed by the fill it finds and the answer before it: after a true read
   * the fill must reach the minimum, after a false one, or at the start, the low mark; an overflow always answers true.
   */
  lemma {:induction false} AnswersFollowFills(p: Params, events: seq<Event>, n: nat)
    requires p.Sane() && n > 0 && Slot(n, p.channels) == 0 && forall e :: e in events ==> Framed(p, e)
    ensures forall e :: e in events + [Asked(n)] ==> Framed(p, e)
    ensures var m := Run(p, events).m;
      Answer(p, events + [Asked(n)])
      <==> m.overflow || m.Frames(p) >= if LastAnswer(p, events) then p.min else p.low
  {
    hide Read, Step, Over, LastAnswer;
    var all := events + [Asked(n)];
    assert all[..|all| - 1] == events;
    var l := Run(p, events);
    StepAnswer(p, l, n);
    PlayingIsLastAnswer(p, events);
    if l.m.overflow {
      OverflowAnswers(p, l.m, n);
    } else if l.m.playing {
      PlayingAnswers(p, l.m, n);
    } else {
      FillingAnswers(p, l.m, n);
    }
  }
}
