/** The outbound drop-oldest ring, called sequentially. */
module RingBuffers {
  import opened Bytes
  import opened Ring
  import opened Arith

  /** What a bounded drop-oldest queue keeps: the newest `cap` floats. */
  function LastN(q: seq<Sample>, cap: nat): (r: seq<Sample>)
    ensures |r| == Min(|q|, cap) && r == q[|q| - |r|..]
  {
    if |q| <= cap then q else q[|q| - cap..]
  }

  lemma DropFront(a: seq<Sample>, b: seq<Sample>, k: nat)
    requires k <= |b|
    ensures (a + b)[|a| + k..] == b[k..]
  {
  }

  /** Only the last `cap` floats of a write can matter. */
  lemma LastNTruncated(q: seq<Sample>, samples: seq<Sample>, cap: nat)
    ensures LastN(q + samples, cap) == LastN(q + LastN(samples, cap), cap)
  {
    if |samples| > cap {
      DropFront(q, samples, |samples| - cap);
      DropFront(q, samples[|samples| - cap..], 0);
    }
  }

  /** Discarding just enough of the queue before a write that fits keeps exactly the newest floats. */
  lemma LastNSplit(q: seq<Sample>, src: seq<Sample>, cap: nat)
    requires |q| <= cap && |src| <= cap
    ensures |q| + |src| <= cap ==> LastN(q + src, cap) == q + src
    ensures |q| + |src| > cap ==> LastN(q + src, cap) == q[|q| + |src| - cap..] + src
  {
  }

  /** The oldest `m` floats went from the queue to the front of the caller's buffer; nothing else moved. */
  ghost predicate Took(queue: seq<Sample>, queue': seq<Sample>, m: nat, buffer: seq<Sample>, buffer': seq<Sample>) {
    && m <= |queue| && m <= |buffer| == |buffer'|
    && queue' == queue[m..]
    && buffer' == queue[..m] + buffer[m..]
  }

  lemma TookNothing(queue: seq<Sample>, buffer: seq<Sample>, channels: nat)
    requires channels > 0
    ensures Took(queue, queue, 0, buffer, buffer) && 0 / channels == 0
  {
  }

  class RingBuffer {
    const data: array<Sample>
    const capacityFloats: nat
    const capacityFrames: nat
    const channels: nat
    var writePos: nat
    var readPos: nat
    var buffered: nat

    ghost predicate Valid()
      reads this, data
    {
      && 0 < channels && 0 < capacityFrames
      && IsProduct(capacityFloats, capacityFrames, channels)
      && 0 < capacityFloats < 0x8000_0000
      && data.Length == capacityFloats
      && writePos < capacityFloats && readPos < capacityFloats && buffered <= capacityFloats
      && writePos == Fwd(readPos, buffered, capacityFloats)
    }

    ghost function Contents(): (q: seq<Sample>)
      requires Valid()
      reads this, data
      ensures |q| == buffered
    {
      Window(data[..], readPos, buffered)
    }

    constructor (capacityFrames: nat, channels: nat)
      requires 0 < capacityFrames && 0 < channels
      requires 0 < capacityFrames * channels < 0x8000_0000
      ensures Valid() && fresh(data)
      ensures this.capacityFrames == capacityFrames && this.channels == channels
      ensures Contents() == []
    {
      this.capacityFloats := capacityFrames * channels;
      this.capacityFrames := capacityFrames;
      this.channels := channels;
      data := new Sample[capacityFrames * channels](_ => SILENCE);
      writePos, readPos, buffered := 0, 0, 0;
    }

    /** Advances the read position past the oldest `n` floats. */
    method Discard(n: nat)
      requires Valid() && n <= buffered
      modifies this`readPos, this`buffered
      ensures Valid() && Contents() == old(Contents())[n..]
    {
      ModIsFwd(readPos, n, capacityFloats);
      WindowDrop(data[..], readPos, buffered, n);
      readPos := (readPos + n) % capacityFloats;
      buffered := buffered - n;
    }

    /** The copy and the two publications of a write that fits. */
    method Append(src: seq<Sample>)
      requires Valid() && buffered + |src| <= capacityFloats
      modifies this`writePos, this`buffered, data
      ensures Valid() && Contents() == old(Contents()) + src
    {
      ModIsFwd(writePos, |src|, capacityFloats);
      CopyToRing(data, writePos, src);
      WindowAppend(old(data[..]), data[..], readPos, buffered, src);
      writePos := (writePos + |src|) % capacityFloats;
      buffered := buffered + |src|;
    }

    method StoreFitting(src: seq<Sample>)
      requires Valid() && |src| <= capacityFloats
      modifies this`writePos, this`readPos, this`buffered, data
      ensures Valid()
      ensures Contents() == LastN(old(Contents()) + src, capacityFloats)
    {
      LastNSplit(Contents(), src, capacityFloats);
      if buffered + |src| > capacityFloats {
        Discard(buffered + |src| - capacityFloats);
      }
      Append(src);
    }

    /** The float side of write: keep the tail that fits, discard the oldest floats, store. */
    method StoreNewest(samples: seq<Sample>)
      requires Valid()
      modifies this`writePos, this`readPos, this`buffered, data
      ensures Valid()
      ensures Contents() == LastN(old(Contents()) + samples, capacityFloats)
    {
      LastNTruncated(Contents(), samples, capacityFloats);
      if |samples| > capacityFloats {
        StoreFitting(samples[|samples| - capacityFloats..]);
      } else {
        StoreFitting(samples);
      }
    }

    lemma TruncatedFrames(frameCount: nat)
      requires Valid()
      ensures frameCount * channels > capacityFloats <==> frameCount > capacityFrames
    {
      if frameCount <= capacityFrames {
        MulMonotone(frameCount, capacityFrames, channels);
      } else {
        MulMonotone(capacityFrames, frameCount, channels);
      }
    }

    /** Keeps the newest capacityFloats floats of what was queued followed by `samples`. */
    method Write(samples: seq<Sample>, frameCount: nat) returns (frames: nat)
      requires Valid()
      requires |samples| == frameCount * channels < 0x1_0000_0000
      modifies this`writePos, this`readPos, this`buffered, data
      ensures Valid()
      ensures Contents() == LastN(old(Contents()) + samples, capacityFloats)
      ensures frames == Min(frameCount, capacityFrames)
    {
      if frameCount == 0 {
        assert samples == [] && Contents() + samples == Contents();
        return 0;
      }
      frames := frameCount;
      TruncatedFrames(frameCount);
      if |samples| > capacityFloats {
        frames := capacityFrames;
      }
      StoreNewest(samples);
    }

    method WriteAvailable() returns (n: nat)
      requires Valid()
      ensures n == (capacityFloats - |Contents()|) / channels
    {
      hide IsProduct, Fwd, Window;
      n := (capacityFloats - buffered) / channels;
    }

    /** The float side of read. */
    method Take(buffer: array<Sample>, n: nat)
      requires Valid() && buffer != data && n <= buffered && n <= buffer.Length
      modifies this`readPos, this`buffered, buffer
      ensures Valid()
      ensures Took(old(Contents()), Contents(), n, old(buffer[..]), buffer[..])
    {
      CopyFromRing(data, readPos, buffer, n);
      WindowTake(data[..], readPos, buffered, n);
      assert data[..] == old(data[..]);
      Discard(n);
      assert buffer[..][..n] == buffer[..n] && buffer[..][n..] == buffer[n..];
    }

    /** Removes the oldest floats into `buffer`, as many as were asked for and are queued. */
    method Read(buffer: array<Sample>, frameCount: nat) returns (frames: nat)
      requires Valid() && buffer != data
      requires frameCount * channels <= buffer.Length && frameCount * channels < 0x1_0000_0000
      modifies this`readPos, this`buffered, buffer
      ensures Valid()
      ensures Took(old(Contents()), Contents(), Min(frameCount * channels, old(|Contents()|)),
                   old(buffer[..]), buffer[..])
      ensures frames == Min(frameCount * channels, old(|Contents()|)) / channels
    {
      hide Took, RingBuffer.Contents, Fwd;
      var requested := frameCount * channels;
      var toRead := Min(requested, buffered);
      if frameCount == 0 || toRead == 0 {
        TookNothing(Contents(), buffer[..], channels);
        return 0;
      }
      Take(buffer, toRead);
      frames := toRead / channels;
    }

    method ReadAvailable() returns (n: nat)
      requires Valid()
      ensures n == |Contents()| / channels
    {
      hide IsProduct, Fwd, Window;
      n := buffered / channels;
    }

    method Flush()
      requires Valid()
      modifies this`readPos, this`buffered
      ensures Valid() && Contents() == []
    {
      readPos := writePos;
      buffered := 0;
    }
  }

  // ---- Runs -----------------------------------------------------------------

  datatype Op = Write(samples: seq<Sample>) | Read(floats: nat) | Flush

  /** The queue the class refines, with everything it has handed to the reader. */
  datatype Queue = Queue(items: seq<Sample>, outputs: seq<seq<Sample>>)

  function Step(s: Queue, op: Op, cap: nat): Queue {
    match op
    case Write(samples) => s.(items := LastN(s.items + samples, cap))
    case Read(floats) =>
      var m := Min(floats, |s.items|);
      Queue(s.items[m..], s.outputs + [s.items[..m]])
    case Flush => s.(items := [])
  }

  function Run(ops: seq<Op>, cap: nat): Queue {
    if ops == [] then Queue([], []) else Step(Run(ops[..|ops| - 1], cap), ops[|ops| - 1], cap)
  }

  lemma WholeFrames(n: nat, channels: nat)
    requires channels > 0 && n % channels == 0
    ensures n / channels * channels == n
  {
  }

  /** Each call on the class is one step of the queue. */
  method Perform(ring: RingBuffer, op: Op, buffer: array<Sample>, ghost s: Queue)
    requires ring.Valid() && ring.Contents() == s.items && buffer != ring.data
    requires op.Write? ==> |op.samples| % ring.channels == 0 && |op.samples| < 0x1_0000_0000
    requires op.Read? ==> op.floats % ring.channels == 0 && op.floats < 0x1_0000_0000 && op.floats <= buffer.Length
    modifies ring, ring.data, buffer
    ensures ring.Valid()
    ensures var s' := Step(s, op, ring.capacityFloats);
      && ring.Contents() == s'.items
      && (!op.Read? ==> s'.outputs == s.outputs && buffer[..] == old(buffer[..]))
      && (op.Read? ==> exists out :: s'.outputs == s.outputs + [out] && out <= buffer[..])
  {
    match op {
      case Write(samples) =>
        WholeFrames(|samples|, ring.channels);
        var frames := ring.Write(samples, |samples| / ring.channels);
      case Read(floats) =>
        WholeFrames(floats, ring.channels);
        var frames := ring.Read(buffer, floats / ring.channels);
        ghost var out := s.items[..Min(floats, |s.items|)];
        assert Step(s, op, ring.capacityFloats).outputs == s.outputs + [out] && out <= buffer[..];
      case Flush =>
        ring.Flush();
    }
  }

  function Written(ops: seq<Op>): seq<Sample> {
    if ops == [] then []
    else
      var last := ops[|ops| - 1];
      Written(ops[..|ops| - 1]) + (if last.Write? then last.samples else [])
  }

  /** Where the i-th output came from: positions in the stream of everything written. */
  ghost predicate Located(outputs: seq<seq<Sample>>, starts: seq<nat>, stream: seq<Sample>, limit: nat) {
    && |starts| == |outputs| && limit <= |stream|
    && (forall i :: 0 <= i < |outputs| ==>
          starts[i] + |outputs[i]| <= limit && outputs[i] == stream[starts[i]..starts[i] + |outputs[i]|])
    && (forall i, j :: 0 <= i < j < |outputs| ==> starts[i] + |outputs[i]| <= starts[j])
  }

  /** The queue is the end of the written stream and the outputs are ordered pieces of what precedes it. */
  ghost predicate FollowsStream(s: Queue, starts: seq<nat>, stream: seq<Sample>) {
    && |s.items| <= |stream| && s.items == stream[|stream| - |s.items|..]
    && Located(s.outputs, starts, stream, |stream| - |s.items|)
  }

  lemma AppendWrite(s: Queue, w: seq<Sample>, starts: seq<nat>, samples: seq<Sample>, cap: nat)
    requires FollowsStream(s, starts, w)
    ensures FollowsStream(Step(s, Write(samples), cap), starts, w + samples)
  {
    var w' := w + samples;
    assert s.items + samples == w'[|w| - |s.items|..];
    forall i | 0 <= i < |s.outputs|
      ensures s.outputs[i] == w'[starts[i]..starts[i] + |s.outputs[i]|]
    {
      var a, b := starts[i], starts[i] + |s.outputs[i]|;
      assert w'[a..b] == w[a..b];
    }
  }

  lemma AppendRead(s: Queue, w: seq<Sample>, starts: seq<nat>, floats: nat, cap: nat) returns (starts': seq<nat>)
    requires FollowsStream(s, starts, w)
    ensures FollowsStream(Step(s, Read(floats), cap), starts', w)
  {
    var p, m := |w| - |s.items|, Min(floats, |s.items|);
    assert s.items[..m] == w[p..p + m];
    starts' := starts + [p];
  }

  /**
   * Over every run of writes, reads and flushes the queue is a suffix of the whole written stream, and every
   * read returned a contiguous piece of that stream lying after all earlier pieces: floats may be dropped, but
   * are never repeated, reordered or invented.
   */
  lemma {:induction false} ReadsAreOrderedPieces(ops: seq<Op>, cap: nat) returns (starts: seq<nat>)
    ensures |Run(ops, cap).items| <= cap
    ensures FollowsStream(Run(ops, cap), starts, Written(ops))
  {
    if ops == [] {
      starts := [];
    } else {
      var init, last := ops[..|ops| - 1], ops[|ops| - 1];
      starts := ReadsAreOrderedPieces(init, cap);
      var s, w := Run(init, cap), Written(init);
      match last {
        case Write(samples) =>
          AppendWrite(s, w, starts, samples, cap);
        case Read(floats) =>
          assert Written(ops) == w;
          starts := AppendRead(s, w, starts, floats, cap);
        case Flush =>
          assert Written(ops) == w;
      }
    }
  }

  function Joined(outputs: seq<seq<Sample>>): seq<Sample> {
    if outputs == [] then [] else Joined(outputs[..|outputs| - 1]) + outputs[|outputs| - 1]
  }

  /** Every write fits and nothing is flushed. */
  ghost predicate Lossless(ops: seq<Op>, cap: nat) {
    forall i :: 0 <= i < |ops| ==>
                  !ops[i].Flush? && (ops[i].Write? ==> |Run(ops[..i], cap).items| + |ops[i].samples| <= cap)
  }

  lemma JoinedMore(outputs: seq<seq<Sample>>, out: seq<Sample>)
    ensures Joined(outputs + [out]) == Joined(outputs) + out
  {
    assert (outputs + [out])[..|outputs|] == outputs;
  }

  lemma Resplit(done: seq<Sample>, items: seq<Sample>, m: nat)
    requires m <= |items|
    ensures done + items[..m] + items[m..] == done + items
  {
  }

  lemma Regroup(done: seq<Sample>, items: seq<Sample>, samples: seq<Sample>)
    ensures done + (items + samples) == done + items + samples
  {
  }

  lemma StepLosesNothing(s: Queue, op: Op, cap: nat)
    requires !op.Flush? && (op.Write? ==> |s.items| + |op.samples| <= cap)
    ensures var s' := Step(s, op, cap);
      Joined(s'.outputs) + s'.items == Joined(s.outputs) + s.items + if op.Write? then op.samples else []
  {
    hide Joined;
    match op
    case Write(samples) =>
      Regroup(Joined(s.outputs), s.items, samples);
    case Read(floats) =>
      var m := Min(floats, |s.items|);
      JoinedMore(s.outputs, s.items[..m]);
      Resplit(Joined(s.outputs), s.items, m);
      assert Joined(s.outputs) + s.items + [] == Joined(s.outputs) + s.items;
  }

  lemma NothingJoined()
    ensures Joined([]) == []
  {
  }

  /** When nothing overflows or is flushed, everything read followed by what is queued is everything written. */
  lemma {:induction false} NothingLost(ops: seq<Op>, cap: nat)
    requires Lossless(ops, cap)
    ensures Joined(Run(ops, cap).outputs) + Run(ops, cap).items == Written(ops)
  {
    hide Step, Joined;
    if ops == [] {
      assert Joined([]) == [] by {
        NothingJoined();
      }
    } else {
      var n := |ops| - 1;
      var init := ops[..n];
      forall i | 0 <= i < n
        ensures !init[i].Flush? && (init[i].Write? ==> |Run(init[..i], cap).items| + |init[i].samples| <= cap)
      {
        assert init[..i] == ops[..i];
      }
      NothingLost(init, cap);
      StepLosesNothing(Run(init, cap), ops[n], cap);
    }
  }

  lemma LastNAgain(q: seq<Sample>, samples: seq<Sample>, cap: nat)
    ensures LastN(LastN(q, cap) + samples, cap) == LastN(q + samples, cap)
  {
    var kept := LastN(q, cap);
    var k := |q| - |kept|;
    assert q + samples == q[..k] + (kept + samples);
  }

  lemma RunMore(ops: seq<Op>, op: Op, cap: nat)
    ensures Run(ops + [op], cap) == Step(Run(ops, cap), op, cap)
  {
    assert (ops + [op])[..|ops|] == ops;
  }

  lemma WrittenMore(ops: seq<Op>, op: Op)
    ensures Written(ops + [op]) == Written(ops) + if op.Write? then op.samples else []
  {
    assert (ops + [op])[..|ops|] == ops;
  }

  lemma OneMoreWrite(ops: seq<Op>, init: seq<Op>, last: Op, q: seq<Sample>, cap: nat)
    requires last.Write? && Run(ops + init, cap).items == LastN(q + Written(init), cap)
    ensures Run(ops + (init + [last]), cap).items == LastN(q + Written(init + [last]), cap)
    ensures Run(ops + (init + [last]), cap).outputs == Run(ops + init, cap).outputs
  {
    hide Run, LastN, Written;
    RunMore(ops + init, last, cap);
    WrittenMore(init, last);
    LastNAgain(q + Written(init), last.samples, cap);
    assert ops + init + [last] == ops + (init + [last]);
    Regroup(q, Written(init), last.samples);
  }

  lemma QueueFits(ops: seq<Op>, cap: nat)
    ensures LastN(Run(ops, cap).items, cap) == Run(ops, cap).items
  {
    hide Run;
    var starts := ReadsAreOrderedPieces(ops, cap);
  }

  /** Writes alone: whatever was queued, the newest `cap` floats of it and of all that is written stay. */
  lemma {:induction false} NewestStay(ops: seq<Op>, more: seq<Op>, cap: nat)
    requires forall op :: op in more ==> op.Write?
    ensures Run(ops + more, cap).items == LastN(Run(ops, cap).items + Written(more), cap)
    ensures Run(ops + more, cap).outputs == Run(ops, cap).outputs
  {
    hide Run, LastN;
    var q := Run(ops, cap).items;
    if more == [] {
      assert ops + more == ops && q + Written(more) == q;
      QueueFits(ops, cap);
    } else {
      var init, last := more[..|more| - 1], more[|more| - 1];
      NewestStay(ops, init, cap);
      OneMoreWrite(ops, init, last, q, cap);
      assert more == init + [last];
    }
  }

  lemma StepKeepsFrames(s: Queue, op: Op, cap: nat, channels: nat)
    requires channels > 0 && cap % channels == 0 && |s.items| % channels == 0
    requires op.Write? ==> |op.samples| % channels == 0
    requires op.Read? ==> op.floats % channels == 0
    ensures |Step(s, op, cap).items| % channels == 0
    ensures op.Read? ==> Min(op.floats, |s.items|) % channels == 0
  {
    match op
    case Write(samples) => ModAdd(|s.items|, |samples|, channels);
    case Read(floats) => ModSub(|s.items|, Min(floats, |s.items|), channels);
    case Flush => ModMul(0, channels);
  }

  /** Whole frames in, whole frames out: no run can shift the channels. */
  lemma {:induction false} RunKeepsFrames(ops: seq<Op>, cap: nat, channels: nat)
    requires channels > 0 && cap % channels == 0
    requires forall op :: op in ops && op.Write? ==> |op.samples| % channels == 0
    requires forall op :: op in ops && op.Read? ==> op.floats % channels == 0
    ensures |Run(ops, cap).items| % channels == 0
    ensures forall i :: 0 <= i < |Run(ops, cap).outputs| ==> |Run(ops, cap).outputs[i]| % channels == 0
  {
    if ops == [] {
      ModMul(0, channels);
    } else {
      var init, last := ops[..|ops| - 1], ops[|ops| - 1];
      RunKeepsFrames(init, cap, channels);
      assert last in ops;
      StepKeepsFrames(Run(init, cap), last, cap, channels);
    }
  }

  lemma FramesAddUp(n: nat, frames: nat, channels: nat)
    requires channels > 0 && n % channels == 0 && n <= frames * channels
    ensures n / channels + (frames * channels - n) / channels == frames
  {
    ModMul(frames, channels);
    ModSub(frames * channels, n, channels);
  }

  /** After any run of whole-frame calls, read_available and write_available add up to the capacity in frames. */
  lemma {:induction false} AvailabilitiesAddUp(ops: seq<Op>, frames: nat, channels: nat)
    requires channels > 0
    requires forall op :: op in ops && op.Write? ==> |op.samples| % channels == 0
    requires forall op :: op in ops && op.Read? ==> op.floats % channels == 0
    ensures var queued := |Run(ops, frames * channels).items|;
      && queued <= frames * channels
      && queued / channels + (frames * channels - queued) / channels == frames
  {
    hide Run;
    var cap := frames * channels;
    ModMul(frames, channels);
    RunKeepsFrames(ops, cap, channels);
    var starts := ReadsAreOrderedPieces(ops, cap);
    FramesAddUp(|Run(ops, cap).items|, frames, channels);
  }
}
