/**
 * The outbound ring under every interleaving of its one writer and one reader thread, down to single
 * float copies. The shared cells are the array, the two positions and the fill counter; each action below is one
 * shared access (or one copied float) of RingBuffer::write or RingBuffer::read. Runs take no overflow branch.
 */
module RingInterleaving {
  import opened Bytes
  import opened Ring
  import opened RingBuffers
  import opened Arith

  /** Where a thread is in its call: outside, copying floats, or past the store of its position. */
  datatype Phase = Idle | Copying | PositionStored

  /** The current write: what it keeps of its argument and how many of those floats are in the array. */
  datatype Writer = Writer(phase: Phase, src: seq<Sample>, done: nat)

  /** The current read: how many floats it will take and how many are in the caller's buffer. */
  datatype Reader = Reader(phase: Phase, want: nat, done: nat)

  /**
   * The shared cells and both threads; then history no action reads: the floats of every write begun, every float
   * handed to the reader, and how many floats have been added to and subtracted from the fill.
   */
  datatype State = State(data: seq<Sample>, writePos: nat, readPos: nat, fill: int, w: Writer, r: Reader,
                         written: seq<Sample>, output: seq<Sample>, published: nat, released: nat)

  datatype Action =
    | WBegin(samples: seq<Sample>) | WCopy | WStorePos | WAddFill
    | RBegin(requested: nat) | RCopy | RStorePos | RSubFill

  const NO_WRITE := Writer(Idle, [], 0)
  const NO_READ := Reader(Idle, 0, 0)

  function Init(cap: nat): State {
    State(Zeros(cap), 0, 0, 0, NO_WRITE, NO_READ, [], [], 0, 0)
  }

  /** The action is that thread's next one, and a beginning write sees room for what it keeps. */
  predicate Enabled(s: State, a: Action) {
    match a
    case WBegin(samples) =>
      s.w.phase.Idle? && samples != [] && s.fill + |LastN(samples, |s.data|)| <= |s.data|
    case WCopy => s.w.phase.Copying? && s.w.done < |s.w.src|
    case WStorePos => s.w.phase.Copying? && s.w.done == |s.w.src|
    case WAddFill => s.w.phase.PositionStored?
    case RBegin(_) => s.r.phase.Idle?
    case RCopy => s.r.phase.Copying? && s.r.done < s.r.want
    case RStorePos => s.r.phase.Copying? && s.r.done == s.r.want
    case RSubFill => s.r.phase.PositionStored?
  }

  function BeginWrite(s: State, src: seq<Sample>): State {
    s.(w := Writer(Copying, src, 0), written := s.written + src)
  }

  function CopyIn(s: State): State
    requires s.data != [] && s.w.done < |s.w.src|
  {
    var slot := Slot(s.writePos + s.w.done, |s.data|);
    s.(data := s.data[slot := s.w.src[s.w.done]], w := s.w.(done := s.w.done + 1))
  }

  function StoreWritePos(s: State): State
    requires s.data != []
  {
    s.(writePos := Slot(s.writePos + |s.w.src|, |s.data|), w := s.w.(phase := PositionStored))
  }

  function AddFill(s: State): State {
    s.(fill := s.fill + |s.w.src|, w := NO_WRITE, published := s.published + |s.w.src|)
  }

  /** A read that finds nothing, or asks for nothing, returns at once. */
  function BeginRead(s: State, want: int): State {
    if want <= 0 then s else s.(r := Reader(Copying, want, 0))
  }

  function CopyOut(s: State): State
    requires s.data != []
  {
    var slot := Slot(s.readPos + s.r.done, |s.data|);
    s.(output := s.output + [s.data[slot]], r := s.r.(done := s.r.done + 1))
  }

  function StoreReadPos(s: State): State
    requires s.data != []
  {
    s.(readPos := Slot(s.readPos + s.r.want, |s.data|), r := s.r.(phase := PositionStored))
  }

  function SubFill(s: State): State {
    s.(fill := s.fill - s.r.want, r := NO_READ, released := s.released + s.r.want)
  }

  function Next(s: State, a: Action): (s': State)
    requires s.data != [] && Enabled(s, a)
  {
    match a
    case WBegin(samples) => BeginWrite(s, LastN(samples, |s.data|))
    case WCopy => CopyIn(s)
    case WStorePos => StoreWritePos(s)
    case WAddFill => AddFill(s)
    case RBegin(requested) => BeginRead(s, Min(requested, s.fill))
    case RCopy => CopyOut(s)
    case RStorePos => StoreReadPos(s)
    case RSubFill => SubFill(s)
  }

  // ---- The invariant ----------------------------------------------------------

  ghost predicate Counts(s: State) {
    && s.data != []
    && 0 <= s.fill && s.fill + |s.w.src| <= |s.data|
    && s.w.done <= |s.w.src| && s.r.done <= s.r.want <= s.fill
    && s.published == s.released + s.fill
    && |s.written| == s.published + |s.w.src|
    && |s.output| == s.released + s.r.done
    && (s.w.phase.Idle? ==> s.w.src == []) && (s.w.phase.PositionStored? ==> s.w.done == |s.w.src|)
    && (s.r.phase.Idle? ==> s.r.want == 0) && (s.r.phase.PositionStored? ==> s.r.done == s.r.want)
  }

  ghost predicate Positions(s: State)
    requires Counts(s)
  {
    && s.writePos == Slot(if s.w.phase.PositionStored? then |s.written| else s.published, |s.data|)
    && s.readPos == Slot(if s.r.phase.PositionStored? then |s.output| else s.released, |s.data|)
  }

  /** The array holds that stretch of the stream, each float in its position's slot. */
  ghost predicate Holds(data: seq<Sample>, stream: seq<Sample>, from: nat, to: nat)
    requires |data| > 0 && to <= |stream|
  {
    forall i {:trigger stream[i]} :: from <= i < to ==> data[Slot(i, |data|)] == stream[i]
  }

  ghost predicate Inv(s: State) {
    && Counts(s) && Positions(s)
    && Holds(s.data, s.written, s.released, s.published + s.w.done)
    && (forall j :: 0 <= j < |s.w.src| ==> s.w.src[j] == s.written[s.published + j])
    && s.output <= s.written
  }

  lemma InitInv(cap: nat)
    requires cap > 0
    ensures Inv(Init(cap))
  {
  }

  lemma WriteBegins(s: State, src: seq<Sample>)
    requires Inv(s) && s.w.phase.Idle? && s.fill + |src| <= |s.data|
    ensures Inv(BeginWrite(s, src))
  {
  }

  /** Storing the next float of the stream overwrites nothing live. */
  lemma HoldsOneMore(data: seq<Sample>, stream: seq<Sample>, from: nat, to: nat)
    requires |data| > 0 && from <= to < |stream| && to < from + |data|
    requires Holds(data, stream, from, to)
    ensures Holds(data[Slot(to, |data|) := stream[to]], stream, from, to + 1)
  {
    forall i | from <= i < to
      ensures Slot(i, |data|) != Slot(to, |data|)
    {
      SlotsDiffer(i, to, |data|);
    }
  }

  lemma NextSlot(i: nat, n: nat, cap: nat)
    requires cap > 0 && n <= cap
    ensures Slot(Slot(i, cap) + n, cap) == Slot(i + n, cap)
  {
    SlotSteps(i, i + n, cap);
  }

  lemma WriterCopies(s: State)
    requires Inv(s) && Enabled(s, WCopy)
    ensures Inv(CopyIn(s))
  {
    hide Slot;
    var s', next := CopyIn(s), s.published + s.w.done;
    assert s'.data == s.data[Slot(next, |s.data|) := s.written[next]] by {
      NextSlot(s.published, s.w.done, |s.data|);
    }
    assert Holds(s'.data, s'.written, s'.released, next + 1) by {
      HoldsOneMore(s.data, s.written, s.released, next);
    }
    assert |s'.data| == |s.data| && Counts(s') && Positions(s');
  }

  lemma WriterStores(s: State)
    requires Inv(s) && Enabled(s, WStorePos)
    ensures Inv(StoreWritePos(s))
  {
    hide Slot;
    NextSlot(s.published, |s.w.src|, |s.data|);
  }

  lemma WriterPublishes(s: State)
    requires Inv(s) && Enabled(s, WAddFill)
    ensures Inv(AddFill(s))
  {
  }

  /** The reader's next float is the next one of the written stream. */
  lemma ReaderCopies(s: State)
    requires Inv(s) && Enabled(s, RCopy)
    ensures Inv(CopyOut(s))
  {
    hide Slot;
    NextSlot(s.released, s.r.done, |s.data|);
    assert s.data[Slot(|s.output|, |s.data|)] == s.written[|s.output|];
  }

  lemma ReaderStores(s: State)
    requires Inv(s) && Enabled(s, RStorePos)
    ensures Inv(StoreReadPos(s))
  {
    hide Slot;
    NextSlot(s.released, s.r.want, |s.data|);
  }

  lemma ReaderReleases(s: State)
    requires Inv(s) && Enabled(s, RSubFill)
    ensures Inv(SubFill(s))
  {
  }

  /** Every action of either thread keeps the invariant. */
  lemma {:induction false} StepKeepsInv(s: State, a: Action)
    requires Inv(s) && Enabled(s, a)
    ensures Inv(Next(s, a)) && |Next(s, a).data| == |s.data|
  {
    match a
    case WBegin(samples) => WriteBegins(s, LastN(samples, |s.data|));
    case WCopy => WriterCopies(s);
    case WStorePos => WriterStores(s);
    case WAddFill => WriterPublishes(s);
    case RBegin(_) =>
    case RCopy => ReaderCopies(s);
    case RStorePos => ReaderStores(s);
    case RSubFill => ReaderReleases(s);
  }

  /** `s` is reached from an empty ring of `cap` floats by the actions, each enabled when taken. */
  ghost predicate Reached(cap: nat, actions: seq<Action>, s: State)
    decreases |actions|
  {
    if actions == [] then s == Init(cap)
    else
      var n := |actions| - 1;
      exists t ::
        Reached(cap, actions[..n], t) && t.data != [] && Enabled(t, actions[n]) && s == Next(t, actions[n])
  }

  lemma {:induction false} ReachedKeepsInv(cap: nat, actions: seq<Action>, s: State)
    requires cap > 0 && Reached(cap, actions, s)
    ensures Inv(s) && |s.data| == cap
    decreases |actions|
  {
    if actions == [] {
      InitInv(cap);
    } else {
      var n := |actions| - 1;
      var t :| Reached(cap, actions[..n], t) && t.data != [] && Enabled(t, actions[n]) && s == Next(t, actions[n]);
      ReachedKeepsInv(cap, actions[..n], t);
      StepKeepsInv(t, actions[n]);
    }
  }

  lemma QuietRing(s: State)
    requires Inv(s) && s.w.phase.Idle? && s.r.phase.Idle?
    ensures s.written == s.output + Window(s.data, s.readPos, s.fill)
  {
    forall j | 0 <= j < s.fill
      ensures Window(s.data, s.readPos, s.fill)[j] == s.written[|s.output| + j]
    {
      SlotSteps(|s.output|, |s.output| + j, |s.data|);
    }
  }

  // ---- What the calls asked for ----------------------------------------------------------

  /** What the writes of a run bring: of an oversized write the end that fits the ring, of any other all of it. */
  function Offered(actions: seq<Action>, cap: nat): seq<Sample> {
    if actions == [] then []
    else
      var last := actions[|actions| - 1];
      Offered(actions[..|actions| - 1], cap) + if last.WBegin? then LastN(last.samples, cap) else []
  }

  lemma StepOffers(t: State, a: Action)
    requires t.data != [] && Enabled(t, a)
    ensures Next(t, a).written == t.written + (if a.WBegin? then LastN(a.samples, |t.data|) else [])
    ensures |Next(t, a).data| == |t.data|
  {
    hide Slot, LastN;
  }

  lemma {:induction false} WrittenIsOffered(cap: nat, actions: seq<Action>, s: State)
    requires cap > 0 && Reached(cap, actions, s)
    ensures s.written == Offered(actions, cap) && |s.data| == cap
    decreases |actions|
  {
    hide Next, Enabled, LastN;
    if actions != [] {
      var n := |actions| - 1;
      var t :| Reached(cap, actions[..n], t) && t.data != [] && Enabled(t, actions[n]) && s == Next(t, actions[n]);
      WrittenIsOffered(cap, actions[..n], t);
      StepOffers(t, actions[n]);
    }
  }

  /** `t` is reached from `s` by the actions, each enabled when taken. */
  ghost predicate Leads(s: State, actions: seq<Action>, t: State)
    decreases |actions|
  {
    if actions == [] then t == s
    else
      var n := |actions| - 1;
      exists u :: Leads(s, actions[..n], u) && u.data != [] && Enabled(u, actions[n]) && t == Next(u, actions[n])
  }

  /** How far a read of `k` floats, begun when `before` floats had been handed out, has come. */
  ghost predicate ReadGoesOn(before: nat, k: nat, t: State) {
    if t.r.phase.Idle? then |t.output| == before + k
    else t.r.want == k && |t.output| == before + t.r.done
  }

  lemma ReadStep(before: nat, k: nat, t: State, a: Action)
    requires Inv(t) && Enabled(t, a) && !a.RBegin? && ReadGoesOn(before, k, t)
    ensures ReadGoesOn(before, k, Next(t, a))
  {
    hide Slot, Holds, Positions, LastN;
  }

  lemma {:induction false} ReadFollows(before: nat, k: nat, s: State, actions: seq<Action>, t: State)
    requires Inv(s) && ReadGoesOn(before, k, s) && Leads(s, actions, t)
    requires forall a :: a in actions ==> !a.RBegin?
    ensures Inv(t) && ReadGoesOn(before, k, t)
    decreases |actions|
  {
    hide Inv, ReadGoesOn, Enabled, Next;
    if actions != [] {
      var n := |actions| - 1;
      var u :| Leads(s, actions[..n], u) && u.data != [] && Enabled(u, actions[n]) && t == Next(u, actions[n]);
      ReadFollows(before, k, s, actions[..n], u);
      assert actions[n] in actions;
      StepKeepsInv(u, actions[n]);
      ReadStep(before, k, u, actions[n]);
    }
  }

  /**
   * However the writer runs meanwhile, a read that has ended has handed out exactly as many floats as it asked for,
   * or as many as were published when it began if those were fewer.
   */
  lemma ReadHandsOut(s: State, requested: nat, actions: seq<Action>, t: State)
    requires Inv(s) && Enabled(s, RBegin(requested)) && Leads(Next(s, RBegin(requested)), actions, t)
    requires t.r.phase.Idle? && forall a :: a in actions ==> !a.RBegin?
    ensures |t.output| == |s.output| + Min(requested, s.fill)
  {
    StepKeepsInv(s, RBegin(requested));
    ReadFollows(|s.output|, Min(requested, s.fill), Next(s, RBegin(requested)), actions, t);
  }

  /**
   * In every interleaving, everything handed to the reader is a prefix of everything the writes brought; and whenever
   * both threads are between calls the rest of it is exactly what the ring still holds.
   */
  lemma OutputIsPrefixOfWritten(cap: nat, actions: seq<Action>, s: State)
    requires cap > 0 && Reached(cap, actions, s)
    ensures s.output <= Offered(actions, cap)
    ensures s.w.phase.Idle? && s.r.phase.Idle? ==>
              && |s.data| == cap && s.readPos < cap && 0 <= s.fill <= cap
              && Offered(actions, cap) == s.output + Window(s.data, s.readPos, s.fill)
  {
    ReachedKeepsInv(cap, actions, s);
    WrittenIsOffered(cap, actions, s);
    if s.w.phase.Idle? && s.r.phase.Idle? {
      QuietRing(s);
    }
  }

  // ---- No thread waits for the other -------------------------------------------------------

  predicate Writers(a: Action) {
    a.WBegin? || a.WCopy? || a.WStorePos? || a.WAddFill?
  }

  predicate Begins(a: Action) {
    a.WBegin? || a.RBegin?
  }

  /** The steps its thread has still to make before the current call returns. */
  function Left(s: State, writer: bool): int {
    var (phase, floats) := if writer then (s.w.phase, |s.w.src| - s.w.done) else (s.r.phase, s.r.want - s.r.done);
    match phase
    case Idle => 0
    case Copying => floats + 2
    case PositionStored => 1
  }

  function OwnSteps(actions: seq<Action>, writer: bool): nat {
    if actions == [] then 0
    else OwnSteps(actions[..|actions| - 1], writer) + if Writers(actions[|actions| - 1]) == writer then 1 else 0
  }

  lemma StepCounts(s: State, a: Action, writer: bool)
    requires Inv(s) && Enabled(s, a) && (Begins(a) ==> Writers(a) != writer)
    ensures Left(Next(s, a), writer) == Left(s, writer) - if Writers(a) == writer then 1 else 0
  {
    hide Slot, Holds, Positions, LastN;
  }

  /** A thread inside a call always has a step it can make, and between calls may begin the next one. */
  lemma NeverWaits(s: State, writer: bool)
    requires Inv(s)
    ensures Left(s, writer) > 0 ==> exists a :: !Begins(a) && Writers(a) == writer && Enabled(s, a)
    ensures Left(s, true) == 0 ==>
              forall samples :: samples != [] && s.fill + Min(|samples|, |s.data|) <= |s.data| ==>
                                  Enabled(s, WBegin(samples))
    ensures Left(s, false) == 0 ==> forall n :: Enabled(s, RBegin(n))
  {
    hide Slot, Holds, Positions;
    if writer && s.w.phase.Copying? {
      assert Enabled(s, WCopy) || Enabled(s, WStorePos);
    } else if writer && s.w.phase.PositionStored? {
      assert Enabled(s, WAddFill);
    } else if !writer && s.r.phase.Copying? {
      assert Enabled(s, RCopy) || Enabled(s, RStorePos);
    } else if !writer && s.r.phase.PositionStored? {
      assert Enabled(s, RSubFill);
    }
  }

  /** Calls are as long as what they copy: two steps more, and none for a read that finds nothing. */
  lemma CallLength(s: State, a: Action)
    requires Inv(s) && Enabled(s, a) && Begins(a)
    ensures a.WBegin? ==> Left(Next(s, a), true) == Min(|a.samples|, |s.data|) + 2
    ensures a.RBegin? ==>
              Left(Next(s, a), false) == if Min(a.requested, s.fill) == 0 then 0 else Min(a.requested, s.fill) + 2
  {
    hide Slot, Holds, Positions;
  }

  /** A call ends after exactly that many of its own thread's steps, whatever the other thread does in between. */
  lemma {:induction false} CallsEnd(s: State, actions: seq<Action>, t: State, writer: bool)
    requires Inv(s) && Leads(s, actions, t)
    requires forall a :: a in actions && Begins(a) ==> Writers(a) != writer
    ensures Inv(t) && Left(t, writer) == Left(s, writer) - OwnSteps(actions, writer)
    decreases |actions|
  {
    hide Inv, Enabled, Next, Left, Writers, Begins;
    if actions != [] {
      var n := |actions| - 1;
      var u :| Leads(s, actions[..n], u) && u.data != [] && Enabled(u, actions[n]) && t == Next(u, actions[n]);
      CallsEnd(s, actions[..n], u, writer);
      assert actions[n] in actions;
      StepKeepsInv(u, actions[n]);
      StepCounts(u, actions[n], writer);
    }
  }
}
