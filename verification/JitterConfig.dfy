/** The millisecond configuration of the jitter buffer and the sizes its constructor computes from it. */
module JitterConfig {
  import opened Bytes
  import opened Arith
  import opened Ring
  import opened JitterModel

  datatype Config = Config(sampleRate: u32, numChannels: u32, targetLatencyMs: u32, targetWindowMs: u32,
                           minLatencyMs: u32, maxLatencyMs: u32, capacityMs: u32, correctionInterval: u32)

  const TWO32 := 0x1_0000_0000

  /** The product wraps at 32 bits before the division. */
  function MsToSamples(ms: u32, rate: u32): u32 {
    (ms * rate % TWO32) / 1000
  }

  function LowMs(c: Config): u32 {
    (c.targetLatencyMs - c.targetWindowMs / 2) % TWO32
  }

  function HighMs(c: Config): u32 {
    (c.targetLatencyMs + c.targetWindowMs / 2) % TWO32
  }

  function CapacityFloats(c: Config): u32 {
    MsToSamples(c.capacityMs, c.sampleRate) * c.numChannels % TWO32
  }

  function ParamsOf(c: Config): Params {
    Params(c.numChannels, CapacityFloats(c),
           MsToSamples(LowMs(c), c.sampleRate), MsToSamples(HighMs(c), c.sampleRate),
           MsToSamples(c.targetLatencyMs, c.sampleRate), MsToSamples(c.minLatencyMs, c.sampleRate),
           MsToSamples(c.maxLatencyMs, c.sampleRate), c.correctionInterval)
  }

  /** The milliseconds are in order. */
  predicate OrderedMs(c: Config) {
    && c.targetWindowMs / 2 <= c.targetLatencyMs
    && c.minLatencyMs <= c.targetLatencyMs - c.targetWindowMs / 2
    && c.targetLatencyMs + c.targetWindowMs / 2 <= c.maxLatencyMs <= c.capacityMs
  }

  predicate NoWrap(ms: u32, rate: u32) {
    ms * rate < TWO32
  }

  /** And at least one sample is required, and nothing wraps. */
  predicate Ordered(c: Config) {
    && 0 < c.numChannels && OrderedMs(c)
    && 1000 <= c.minLatencyMs * c.sampleRate
    && NoWrap(c.capacityMs, c.sampleRate)
    && MsToSamples(c.capacityMs, c.sampleRate) * c.numChannels < 0x8000_0000
  }

  lemma DivMonotone(x: nat, y: nat)
    requires x <= y < TWO32
    ensures (x % TWO32) / 1000 <= (y % TWO32) / 1000
  {
  }

  /** Nothing wraps up to `top`, so more milliseconds never give fewer samples. */
  lemma MsMonotone(a: u32, b: u32, top: u32, rate: u32)
    requires a <= b <= top && top * rate < TWO32
    ensures MsToSamples(a, rate) <= MsToSamples(b, rate)
  {
    MulMonotone(a, b, rate);
    MulMonotone(b, top, rate);
    DivMonotone(a * rate, b * rate);
  }

  lemma AtLeastOne(ms: u32, top: u32, rate: u32)
    requires ms <= top && top * rate < TWO32 && 1000 <= ms * rate
    ensures 1 <= MsToSamples(ms, rate)
  {
    MulMonotone(ms, top, rate);
    var x := ms * rate;
    assert 1 <= (x % TWO32) / 1000;
  }

  lemma InRange(x: int)
    requires 0 <= x < TWO32
    ensures x % TWO32 == x
  {
  }

  lemma WindowMs(c: Config)
    requires OrderedMs(c)
    ensures c.minLatencyMs <= LowMs(c) <= c.targetLatencyMs <= HighMs(c) <= c.maxLatencyMs <= c.capacityMs
  {
    InRange(c.targetLatencyMs - c.targetWindowMs / 2);
    InRange(c.targetLatencyMs + c.targetWindowMs / 2);
  }

  lemma SizesInOrder(a: u32, lo: u32, mid: u32, hi: u32, b: u32, top: u32, rate: u32)
    requires a <= lo <= mid <= hi <= b <= top && top * rate < TWO32
    ensures MsToSamples(a, rate) <= MsToSamples(lo, rate) <= MsToSamples(mid, rate) <= MsToSamples(hi, rate)
    ensures MsToSamples(hi, rate) <= MsToSamples(b, rate) <= MsToSamples(top, rate)
  {
    MsMonotone(a, lo, top, rate);
    MsMonotone(lo, mid, top, rate);
    MsMonotone(mid, hi, top, rate);
    MsMonotone(hi, b, top, rate);
    MsMonotone(b, top, top, rate);
  }

  lemma RingInFrames(frames: nat, most: nat, channels: nat)
    requires 0 < channels && most <= frames && frames * channels < 0x8000_0000
    ensures var cap := frames * channels % TWO32;
      Times(most, channels) <= cap < 0x8000_0000 && Slot(cap, channels) == 0
  {
    MulMonotone(most, frames, channels);
    TimesIsProduct(most, channels);
    ModMul(frames, channels);
    SlotIsMod(frames * channels, channels);
  }

  /** An ordered configuration gives ordered sizes that fit the ring, and a ring of whole frames. */
  lemma {:induction false} OrderedIsSane(c: Config)
    requires Ordered(c)
    ensures ParamsOf(c).Sane() && Slot(ParamsOf(c).cap, c.numChannels) == 0
  {
    WindowMs(c);
    AtLeastOne(c.minLatencyMs, c.capacityMs, c.sampleRate);
    SizesInOrder(c.minLatencyMs, LowMs(c), c.targetLatencyMs, HighMs(c), c.maxLatencyMs, c.capacityMs, c.sampleRate);
    RingInFrames(MsToSamples(c.capacityMs, c.sampleRate), ParamsOf(c).max, c.numChannels);
  }

  /** Without wrapping, milliseconds become as many whole samples as fit in them. */
  lemma MsExactly(ms: u32, rate: u32)
    requires ms * rate < TWO32
    ensures 1000 * MsToSamples(ms, rate) <= ms * rate < 1000 * (MsToSamples(ms, rate) + 1)
  {
    InRange(ms * rate);
  }

  /** `n` is the whole number of samples in `ms`. */
  predicate SamplesIn(n: nat, ms: int, rate: nat) {
    1000 * n <= ms * rate < 1000 * (n + 1)
  }

  lemma SamplesExactly(ms: u32, top: u32, rate: u32)
    requires ms <= top && NoWrap(top, rate)
    ensures SamplesIn(MsToSamples(ms, rate), ms, rate)
  {
    MulMonotone(ms, top, rate);
    MsExactly(ms, rate);
  }

  lemma WindowExactly(c: Config)
    requires OrderedMs(c)
    ensures LowMs(c) == c.targetLatencyMs - c.targetWindowMs / 2
    ensures HighMs(c) == c.targetLatencyMs + c.targetWindowMs / 2
  {
    InRange(c.targetLatencyMs - c.targetWindowMs / 2);
    InRange(c.targetLatencyMs + c.targetWindowMs / 2);
  }

  /** An ordered configuration is converted exactly, with half the window to either side of the target. */
  lemma SizesExactly(c: Config)
    requires Ordered(c)
    ensures var p, half := ParamsOf(c), c.targetWindowMs / 2;
      && p.channels == c.numChannels && p.interval == c.correctionInterval
      && SamplesIn(p.low, c.targetLatencyMs - half, c.sampleRate)
      && SamplesIn(p.high, c.targetLatencyMs + half, c.sampleRate)
      && SamplesIn(p.centre, c.targetLatencyMs, c.sampleRate)
      && SamplesIn(p.min, c.minLatencyMs, c.sampleRate) && SamplesIn(p.max, c.maxLatencyMs, c.sampleRate)
  {
    hide MsToSamples, SamplesIn, CapacityFloats, OrderedMs, NoWrap, LowMs, HighMs;
    WindowMs(c);
    WindowExactly(c);
    SamplesExactly(LowMs(c), c.capacityMs, c.sampleRate);
    SamplesExactly(HighMs(c), c.capacityMs, c.sampleRate);
    SamplesExactly(c.targetLatencyMs, c.capacityMs, c.sampleRate);
    SamplesExactly(c.minLatencyMs, c.capacityMs, c.sampleRate);
    SamplesExactly(c.maxLatencyMs, c.capacityMs, c.sampleRate);
  }

  /** And the ring holds the capacity's samples for every channel. */
  lemma CapacityExactly(c: Config) returns (frames: nat)
    requires Ordered(c)
    ensures SamplesIn(frames, c.capacityMs, c.sampleRate) && ParamsOf(c).cap == frames * c.numChannels
  {
    hide SamplesIn, OrderedMs;
    SamplesExactly(c.capacityMs, c.capacityMs, c.sampleRate);
    frames := MsToSamples(c.capacityMs, c.sampleRate);
    hide MsToSamples;
    InRange(frames * c.numChannels);
  }
}
