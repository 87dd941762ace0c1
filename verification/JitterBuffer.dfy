/** The inbound jitter buffer over its ring, refining JitterModel call by call. */
module JitterBuffers {
  import opened Bytes
  import opened Arith
  import opened Ring
  import opened RingBuffers
  import M = JitterModel
  import C = JitterConfig

  /** A position less than a lap before the end of the copied window keeps its float. */
  lemma StoreSpares(before: seq<Sample>, after: seq<Sample>, end: nat, n: nat, i: nat)
    requires 0 < |before| == |after| && n <= |after| && i < end && end + n <= i + |after|
    requires forall k :: 0 <= k < |after| && !InWindow(k, Slot(end, |after|), n, |after|) ==> after[k] == before[k]
    ensures after[Slot(i, |after|)] == before[Slot(i, |after|)]
  {
    SlotSteps(i, end, |after|);
    assert !InWindow(Slot(i, |after|), Slot(end, |after|), n, |after|);
  }

  /** A position in the copied window gets the copied float. */
  lemma StoreFills(after: seq<Sample>, end: nat, kept: seq<Sample>, i: nat)
    requires |kept| <= |after| && end <= i < end + |kept|
    requires Window(after, Slot(end, |after|), |kept|) == kept
    ensures after[Slot(i, |after|)] == kept[i - end]
  {
    var k := i - end;
    SlotSteps(end, i, |after|);
    assert Window(after, Slot(end, |after|), |kept|)[k] == kept[k];
  }

  lemma Stored(before: seq<Sample>, after: seq<Sample>, stream: seq<Sample>, kept: seq<Sample>, i: nat)
    requires 0 < |before| == |after| && |kept| <= |after| && i < |stream| + |kept| <= i + |after|
    requires i < |stream| ==> before[Slot(i, |before|)] == stream[i]
    requires Window(after, Slot(|stream|, |after|), |kept|) == kept
    requires forall k :: 0 <= k < |after| && !InWindow(k, Slot(|stream|, |after|), |kept|, |after|) ==>
               after[k] == before[k]
    ensures after[Slot(i, |after|)] == (stream + kept)[i]
  {
    if i < |stream| {
      StoreSpares(before, after, |stream|, |kept|, i);
    } else {
      StoreFills(after, |stream|, kept, i);
    }
  }

  /** A copied-in window at the stream's end leaves the newest lap of the longer stream in the ring. */
  lemma StoreHolds(before: seq<Sample>, after: seq<Sample>, stream: seq<Sample>, kept: seq<Sample>)
    requires 0 < |before| == |after| && |kept| <= |after|
    requires forall i {:trigger stream[i]} :: Max(0, |stream| - |before|) <= i < |stream| ==>
               before[Slot(i, |before|)] == stream[i]
    requires Window(after, Slot(|stream|, |after|), |kept|) == kept
    requires forall k :: 0 <= k < |after| && !InWindow(k, Slot(|stream|, |after|), |kept|, |after|) ==>
               after[k] == before[k]
    ensures var longer := stream + kept;
      forall i {:trigger longer[i]} :: Max(0, |longer| - |after|) <= i < |longer| ==>
        after[Slot(i, |after|)] == longer[i]
  {
    var longer := stream + kept;
    forall i {:trigger longer[i]} | Max(0, |longer| - |after|) <= i < |longer|
      ensures after[Slot(i, |after|)] == longer[i]
    {
      Stored(before, after, stream, kept, i);
    }
  }

  /** A segment followed by its last frame over and over. */
  lemma IsExtended(out: seq<Sample>, n: nat, segment: seq<Sample>, channels: nat)
    requires 0 < channels <= n == |segment| <= |out| && out[..n] == segment
    requires forall k :: n <= k < |out| ==> out[k] == segment[n - channels + Slot(k - n, channels)]
    ensures out == M.Extended(segment, channels, |out|)
  {
    hide Slot;
    forall i | 0 <= i < |out| - n
      ensures out[n..][i] == M.Repeats(segment[n - channels..], |out| - n)[i]
    {
      assert out[n..][i] == out[n + i];
    }
    assert out == out[..n] + out[n..];
  }

  class JitterBuffer {
    const data: array<Sample>
    const capacity: nat
    const numChannels: nat
    const correctionInterval: nat
    const targetLow: nat
    const targetHigh: nat
    const targetCentre: nat
    const minSamples: nat
    const maxSamples: nat
    var writePos: nat
    var readPos: nat
    var playing: bool
    var correctionCounter: nat
    var underrunCount: nat
    var overrunCount: nat
    var samplesDropped: nat
    var samplesInserted: nat
    var buffered: int
    var overflowFlag: bool

    /** Everything accepted so far, and how much of it lies behind the reader. */
    ghost var accepted: seq<Sample>
    ghost var pos: nat

    ghost function P(): M.Params {
      M.Params(numChannels, capacity, targetLow, targetHigh, targetCentre, minSamples, maxSamples,
               correctionInterval)
    }

    ghost function Meter(): M.Meter
      reads this
    {
      M.Meter(|accepted|, pos, overflowFlag, playing, correctionCounter, underrunCount, overrunCount,
              samplesDropped, samplesInserted)
    }

    /** The plan was carried out: the meters are its outcome and `dst` is what it says of the accepted stream. */
    ghost predicate Followed(plan: M.Plan, stream: seq<Sample>, dst: array<Sample>)
      reads this, dst
    {
      && accepted == stream && Meter() == plan.next
      && plan.start <= plan.stop <= |stream| && plan.stop - plan.start <= dst.Length
      && (plan.repeats ==> 0 < numChannels <= plan.stop - plan.start)
      && dst[..] == M.Output(stream, numChannels, plan, dst.Length)
    }

    /** The ring holds the newest floats, at most a lap of them, each in its stream position's slot. */
    ghost predicate Holds(stream: seq<Sample>)
      reads data
      requires data.Length > 0
    {
      forall i {:trigger stream[i]} :: Max(0, |stream| - data.Length) <= i < |stream| ==>
        data[Slot(i, data.Length)] == stream[i]
    }

    ghost predicate Valid()
      reads this, data
    {
      && P().Sane() && Meter().Ok(P()) && 0 < capacity == data.Length
      && writePos == Slot(|accepted|, capacity)
      && (!overflowFlag ==> readPos == Slot(pos, capacity))
      && buffered == Meter().Buffered(P())
      && Holds(accepted)
    }

    lemma EmptyIsValid()
      requires P().Sane() && capacity == data.Length && accepted == [] && Meter() == M.EMPTY
      requires writePos == readPos == 0 && buffered == 0
      ensures Valid()
    {
      hide M.Params.Sane, M.Meter.Ok, M.Meter.Buffered;
      M.SnapFits(P());
      M.EmptyOk(P());
      SlotZero(capacity);
    }

    constructor (config: C.Config)
      requires C.ParamsOf(config).Sane()
      ensures P() == C.ParamsOf(config) && Valid() && fresh(data)
      ensures accepted == [] && Meter() == M.EMPTY
      ensures underrunCount == overrunCount == samplesDropped == samplesInserted == 0
    {
      hide C.MsToSamples, C.LowMs, C.HighMs, C.CapacityFloats, M.Params.Sane, JitterBuffer.Valid;
      ghost var p := C.ParamsOf(config);
      M.SnapFits(p);
      numChannels, correctionInterval := config.numChannels, config.correctionInterval;
      capacity := C.CapacityFloats(config);
      data := new Sample[C.CapacityFloats(config)](_ => SILENCE);
      targetLow := C.MsToSamples(C.LowMs(config), config.sampleRate);
      targetHigh := C.MsToSamples(C.HighMs(config), config.sampleRate);
      targetCentre := C.MsToSamples(config.targetLatencyMs, config.sampleRate);
      minSamples := C.MsToSamples(config.minLatencyMs, config.sampleRate);
      maxSamples := C.MsToSamples(config.maxLatencyMs, config.sampleRate);
      writePos, readPos, buffered, overflowFlag := 0, 0, 0, false;
      playing, correctionCounter := false, 0;
      underrunCount, overrunCount, samplesDropped, samplesInserted := 0, 0, 0, 0;
      accepted, pos := [], 0;
      new;
      assert P() == p;
      EmptyIsValid();
    }

    /** Copies `kept` in at the write position and advances it. */
    method Store(kept: seq<Sample>)
      requires 0 < capacity == data.Length && |kept| <= capacity
      requires writePos == Slot(|accepted|, capacity) && Holds(accepted)
      modifies this`writePos, this`accepted, data
      ensures accepted == old(accepted) + kept
      ensures writePos == Slot(|accepted|, capacity) && Holds(accepted)
    {
      ModIsFwd(writePos, |kept|, capacity);
      SlotSteps(|accepted|, |accepted + kept|, capacity);
      CopyToRing(data, writePos, kept);
      StoreHolds(old(data[..]), data[..], accepted, kept);
      writePos := (writePos + |kept|) % capacity;
      accepted := accepted + kept;
    }

    method Write(src: seq<Sample>)
      requires Valid()
      modifies this, data
      ensures Valid() && accepted == old(accepted) + M.Kept(P(), src)
      ensures Meter() == M.Write(P(), old(Meter()), |M.Kept(P(), src)|)
    {
      if src == [] {
        return;
      }
      var kept := src;
      if |kept| > capacity {
        kept := kept[|kept| - capacity..];
      }
      var over := buffered + |kept| > capacity;
      if over {
        overflowFlag := true;
        buffered := capacity;
      } else {
        buffered := buffered + |kept|;
      }
      Store(kept);
      assert kept == LastN(src, capacity);
    }

    /** Moves the reader `n` floats on. */
    method Consume(n: nat)
      requires Valid() && !overflowFlag && n <= buffered
      modifies this`readPos, this`buffered, this`pos
      ensures Valid() && pos == old(pos) + n
    {
      ModIsFwd(readPos, n, capacity);
      SlotSteps(pos, pos + n, capacity);
      readPos := (readPos + n) % capacity;
      buffered := buffered - n;
      pos := pos + n;
    }

    /** Copies the next `n` floats of the stream to the front of `dst`. */
    method CopyNext(dst: array<Sample>, n: nat)
      requires Valid() && !overflowFlag && dst != data && n <= buffered && n <= dst.Length
      modifies dst
      ensures dst[..n] == accepted[pos..pos + n]
      ensures Valid()
    {
      CopyFromRing(data, readPos, dst, n);
      forall j | 0 <= j < n
        ensures dst[..n][j] == accepted[pos + j]
      {
        SlotSteps(pos, pos + j, capacity);
      }
    }

    /** Zeroes `dst` from index `from` on. */
    method Silence(dst: array<Sample>, from: nat)
      requires from <= dst.Length && dst != data
      modifies dst
      ensures dst[..] == old(dst[..from]) + Zeros(dst.Length - from)
    {
      for i := from to dst.Length
        invariant dst[..from] == old(dst[..from])
        invariant forall k :: from <= k < i ==> dst[k] == SILENCE
      {
        dst[i] := SILENCE;
      }
    }

    method ReadPlain(dst: array<Sample>)
      requires Valid() && !overflowFlag && dst != data
      modifies this`readPos, this`buffered, this`pos, dst
      ensures Valid()
      ensures Followed(M.Plain(old(Meter()), dst.Length), old(accepted), dst)
    {
      var toRead := Min(dst.Length, buffered);
      CopyNext(dst, toRead);
      Silence(dst, toRead);
      Consume(toRead);
    }

    method ReadDropping(dst: array<Sample>)
      requires Valid() && !overflowFlag && dst != data
      modifies this`readPos, this`buffered, this`samplesDropped, this`pos, dst
      ensures Valid()
      ensures Followed(M.Drop(P(), old(Meter()), dst.Length), old(accepted), dst)
    {
      var toConsume := Min(dst.Length + numChannels, buffered);
      var toOutput := Min(dst.Length, buffered);
      CopyNext(dst, toOutput);
      Silence(dst, toOutput);
      Consume(toConsume);
      samplesDropped := samplesDropped + 1;
    }

    /** Fills `dst` behind `segment` with the frame that ends it, channel by channel. */
    method RepeatLast(dst: array<Sample>, taken: nat, ghost segment: seq<Sample>)
      requires 0 < numChannels <= taken <= dst.Length && dst != data
      requires dst[..taken] == segment
      modifies dst
      ensures dst[..] == M.Extended(segment, numChannels, dst.Length)
    {
      hide M.Extended, M.Repeats, Slot, Wrap;
      var lastStart := taken - numChannels;
      for i := taken to dst.Length
        invariant dst[..taken] == segment
        invariant forall k :: taken <= k < i ==> dst[k] == segment[taken - numChannels + Slot(k - taken, numChannels)]
      {
        SlotIsMod(i - taken, numChannels);
        var k := lastStart + Wrap(i - taken, numChannels);
        assert dst[k] == dst[..taken][k] == segment[k];
        dst[i] := dst[k];
      }
      IsExtended(dst[..], taken, segment, numChannels);
    }

    /** Delivers the next `taken` floats and repeats the last frame of them. */
    method CopyExtended(dst: array<Sample>, taken: nat, ghost piece: seq<Sample>)
      requires Valid() && !overflowFlag && dst != data
      requires numChannels <= taken <= buffered && taken <= dst.Length
      requires piece == accepted[pos..pos + taken]
      modifies dst
      ensures Valid() && dst[..] == M.Extended(piece, numChannels, dst.Length)
    {
      CopyNext(dst, taken);
      RepeatLast(dst, taken, piece);
    }

    method InsertFrame(dst: array<Sample>, taken: nat, ghost piece: seq<Sample>)
      requires Valid() && !overflowFlag && dst != data
      requires numChannels <= taken <= buffered && taken <= dst.Length
      requires piece == accepted[pos..pos + taken]
      modifies this`readPos, this`buffered, this`samplesInserted, this`pos, dst
      ensures Valid() && dst[..] == M.Extended(piece, numChannels, dst.Length)
      ensures Meter() == old(Meter()).(pos := old(pos) + taken, inserted := old(samplesInserted) + 1)
    {
      CopyExtended(dst, taken, piece);
      Consume(taken);
      samplesInserted := samplesInserted + 1;
    }

    method ReadInserting(dst: array<Sample>)
      requires Valid() && !overflowFlag && dst != data
      requires numChannels <= buffered && numChannels <= dst.Length
      modifies this`readPos, this`buffered, this`samplesInserted, this`pos, dst
      ensures Valid()
      ensures Followed(M.Insert(P(), old(Meter()), dst.Length), old(accepted), dst)
    {
      var n := dst.Length;
      ghost var plan := M.Insert(P(), Meter(), n);
      var taken := n - numChannels;
      if taken < numChannels {
        taken := numChannels;
      }
      if taken > buffered {
        taken := buffered;
      }
      ghost var stop := pos + taken;
      assert plan == M.Plan(Meter().(pos := stop, inserted := samplesInserted + 1), pos, stop, true, true);
      InsertFrame(dst, taken, accepted[plan.start..plan.stop]);
    }

    method ReadCorrected(dst: array<Sample>, fill: nat)
      requires Valid() && !overflowFlag && dst != data && fill == Meter().Frames(P())
      requires numChannels <= buffered && numChannels <= dst.Length
      modifies this`readPos, this`buffered, this`samplesInserted, this`samplesDropped, this`pos, dst
      ensures Valid()
      ensures Followed(M.Corrected(P(), old(Meter()), dst.Length), old(accepted), dst)
    {
      if fill < targetLow {
        ReadInserting(dst);
      } else if fill > targetHigh {
        ReadDropping(dst);
      } else {
        ReadPlain(dst);
      }
    }

    /** Every correctionInterval-th read may correct. */
    method ReadPaced(dst: array<Sample>, fill: nat)
      requires Valid() && !overflowFlag && dst != data && fill == Meter().Frames(P())
      requires numChannels <= buffered && numChannels <= dst.Length
      modifies this`readPos, this`buffered, this`correctionCounter, this`samplesInserted, this`samplesDropped, this`pos,
        dst
      ensures Valid()
      ensures Followed(M.ReadPaced(P(), old(Meter()), dst.Length), old(accepted), dst)
    {
      hide Slot, Over, M.Output, M.Plain, M.Corrected;
      ghost var m := Meter();
      if correctionCounter + 1 < correctionInterval {
        correctionCounter := correctionCounter + 1;
        assert Meter() == m.(counter := m.counter + 1);
        ReadPlain(dst);
      } else {
        correctionCounter := 0;
        assert Meter() == m.(counter := 0);
        ReadCorrected(dst, fill);
      }
    }

    lemma FrameFits(fill: nat)
      requires Valid() && !overflowFlag && fill == Over(buffered, numChannels) >= minSamples
      ensures numChannels <= buffered
    {
      OverAtLeast(buffered, 1, numChannels);
    }

    lemma WholeFrame(n: nat)
      requires 0 < numChannels && 0 < n && Slot(n, numChannels) == 0
      ensures numChannels <= n
    {
    }

    method FillSamples() returns (fill: nat)
      requires Valid() && !overflowFlag
      ensures fill == Meter().Frames(P())
    {
      OverIsQuotient(buffered, numChannels);
      fill := buffered / numChannels;
    }

    /** The underrun test and the paced drift correction. */
    method ReadPlaying(dst: array<Sample>) returns (ok: bool)
      requires Valid() && !overflowFlag && dst != data
      requires 0 < dst.Length && Slot(dst.Length, numChannels) == 0
      modifies this, dst
      ensures Valid()
      ensures var plan := M.ReadPlaying(P(), old(Meter()), dst.Length);
        Followed(plan, old(accepted), dst) && ok == plan.ok
    {
      hide Slot, Over;
      var fill := FillSamples();
      if fill < minSamples {
        playing, underrunCount := false, underrunCount + 1;
        Silence(dst, 0);
        return false;
      }
      ok := true;
      FrameFits(fill);
      WholeFrame(dst.Length);
      ReadPaced(dst, fill);
    }

    method SnapFloats() returns (snap: nat)
      requires P().Sane()
      ensures snap == P().Snap() <= capacity
    {
      TimesIsProduct(targetCentre, numChannels);
      M.SnapFits(P());
      snap := targetCentre * numChannels;
    }

    method SnapAfterOverrun()
      requires Valid() && !overflowFlag && Meter().Frames(P()) > maxSamples
      modifies this`readPos, this`buffered, this`overrunCount, this`pos
      ensures Valid() && Meter() == M.Limited(P(), old(Meter()))
    {
      var snap := SnapFloats();
      OverAtLeast(buffered, targetCentre, numChannels);
      var excess := buffered - snap;
      Consume(excess);
      overrunCount := overrunCount + 1;
    }

    /** The FILLING test, then the PLAYING part. */
    method ReadSome(dst: array<Sample>) returns (ok: bool)
      requires Valid() && !overflowFlag && dst != data
      requires 0 < dst.Length && Slot(dst.Length, numChannels) == 0
      modifies this, dst
      ensures Valid()
      ensures var plan := M.ReadSome(P(), old(Meter()), dst.Length);
        Followed(plan, old(accepted), dst) && ok == plan.ok
    {
      var fill := FillSamples();
      if !playing {
        if fill >= targetLow {
          playing, correctionCounter := true, 0;
        } else {
          Silence(dst, 0);
          return false;
        }
      }
      if fill > maxSamples {
        SnapAfterOverrun();
      }
      ok := ReadPlaying(dst);
    }

    method SnapAfterOverflow()
      requires Valid() && overflowFlag
      modifies this`overflowFlag, this`readPos, this`buffered, this`overrunCount, this`pos
      ensures Valid() && Meter() == M.AfterOverflow(P(), old(Meter()))
    {
      hide Slot, Over, Times;
      var snap := SnapFloats();
      SlotSteps(|accepted| - snap, |accepted|, capacity);
      overflowFlag := false;
      if writePos >= snap {
        readPos := writePos - snap;
      } else {
        readPos := capacity - (snap - writePos);
      }
      buffered := snap;
      overrunCount := overrunCount + 1;
      pos := |accepted| - snap;
    }

    /** Fills `dst`; false means silence. `dst` holds whole frames, as the header asks of callers. */
    method Read(dst: array<Sample>) returns (ok: bool)
      requires Valid() && dst != data
      requires Slot(dst.Length, numChannels) == 0 && dst.Length + numChannels < 0x8000_0000
      modifies this, dst
      ensures Valid()
      ensures var plan := M.Read(P(), old(Meter()), dst.Length);
        Followed(plan, old(accepted), dst) && ok == plan.ok
    {
      if dst.Length == 0 {
        return true;
      }
      if overflowFlag {
        SnapAfterOverflow();
      }
      ok := ReadSome(dst);
    }
  }
}
