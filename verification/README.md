# Panaudia core: a verified model

The Panaudia core is a C++ library that carries spatial audio and small pieces of shared state over Media over
QUIC. This project models its stateful and its coding parts in Dafny and proves what they keep over every run:

* **Audio rings.** `RingBuffer.dfy` is the outbound drop-oldest ring as a class refining a bounded queue;
  `RingInterleaving.dfy` is the same ring as single steps of one writer and one reader thread. `JitterModel.dfy`
  says what the inbound jitter buffer does in absolute stream positions, `JitterBuffer.dfy` is the class over its
  ring, and `JitterLaws.dfy`, `JitterRuns.dfy`, `JitterAnswers.dfy` and `JitterDrift.dfy` prove stream refinement,
  conservation, pacing, when a read answers true, and convergence.
* **Wire formats.** `Varint.dfy`, `Wire.dfy`, `Framing.dfy`, `Messages.dfy` and `Datagram.dfy` are the layers of
  the draft-16 control messages and object datagrams, over the varints of section 16 of RFC 9000;
  `ControlStream.dfy` is the reassembly loop; `CacheWire.dfy` is the cache envelope. `WireLayout.dfy` fixes the bytes
  themselves and `Truncation.dfy` shows that nothing cut short is taken for whole.
* **State cache.** `CacheMap.dfy` (with `KeyOrder.dfy`) is the op-id-gated map and its prefix scan,
  `MergeRuns.dfy` what a whole delivery log leaves in it, `TopicMerger.dfy` the batches inside envelopes and
  resuming after a reconnect.
* **Session.** `Reconnect.dfy`, `ReconnectRuns.dfy`, `ReconnectCycles.dfy` and `Backoff.dfy` are the connection life
  cycle, `Orchestration.dfy` and `OrchestrationLaws.dfy` the requests, ids and aliases, `Session.dfy` the session
  manager composed of both and the outbound rings, `PcmPipeline.dfy` the send path from ring to datagram.

Where the code changes state in place, a class has the code's fields and each method is proved against a function
of the old state; the lemmas are about those functions. Parsers are written on the bytes still unread, so an offset
in the code is the start of a suffix here. Proofs use `hide` statements to keep definitions they do not need out of
the solver's way.

`dafny verify dfyconfig.toml` checks everything.

## Where the code and its documentation differ

The model follows the code.

* `include/panaudia/cache_map.h:65-68` says the highest op id per key wins. A tombstone leaves no marker, so an older
  set that arrives after it brings the key back: `MergeRuns.LateSetReturns`. The rule holds of exactly the logs in
  which no set survives on a key whose newest op is a tombstone: `MergeRuns.NewestRulesExactly`.
* `docs/guide.md:204` promises retries with exponential backoff. A reconnect attempt that starts does not move the
  deadline (`src/session_manager.cpp:412-420`), so the session thread's next turn makes the next attempt and tears the
  previous one down. A turn that makes an attempt before the last one and does not get Ready is followed by the configured
  delay exactly when its dial could not start or a loss was reported in that same turn (or the delay is 0):
  `ReconnectCycles.BackoffExactly`. A cycle in which nothing fails outright lasts a fixed
  number of turns whatever delays are configured: `ReconnectCycles.SilentCycle`.
* The delay loop wraps at 32 bits for a large base: `Backoff.LargeBaseWraps`, with the exact condition in
  `Backoff.DelayExactly`.
* `max_reconnect_attempts` bounds the attempts of one cycle only. Giving up is final exactly when no transport is kept
  (`ReconnectCycles.FailedIsFinalExactly`, `ReconnectCycles.GivingUpExactly`); a kept one can still open the connection,
  and a loss it reports starts a new cycle from attempt 0 (`ReconnectCycles.LossAfterGivingUpRestarts`). Without any
  call of the host a session can therefore make any number of attempts, exactly when the limit is not 0:
  `ReconnectCycles.RetriesUnboundedExactly`.
* A connect() after a failure or a disconnection that the session thread has survived replaces a running thread object,
  which ends the process: `ReconnectRuns.RunAbortsExactly`, `ReconnectRuns.ConnectAfterLossAborts`.
* `src/session_manager.cpp:469` expects a failed first dial to leave the state Failed. Destroying the transport then
  reports Disconnected, which is the state that stays; with reconnecting enabled the state is Reconnecting with no
  session thread to act on it: `ReconnectRuns.ConnectOutcome`, `ReconnectRuns.FailedDialIsStuck`.
* Host parameters that reuse one of the four keys of the moved SUBSCRIBE fields may override them:
  `Messages.HostPriorityCanWin`, with the exact condition in `Messages.FieldsRecovered`.
* Drift correction below the target window needs reads of at least two frames. With one-frame reads an insertion has no
  room: the fill never moves while samples_inserted goes on counting: `JitterDrift.OneFrameNeverConverges`.
* A SUBSCRIBE_OK that names one of our own ANNOUNCE ids overwrites an outbound track's alias:
  `OrchestrationLaws.AnsweredExactly`.
* Resuming above op id 0 skips an envelope whose id is 0: `TopicMergers.ResumeExactly`.

## Model

| member | source | states |
|---|---|---|
| RingBuffers.RingBuffer.constructor | src/ring_buffer.cpp:7-12 | an empty ring of capacity_frames * channels floats |
| RingBuffers.RingBuffer.Write | src/ring_buffer.cpp:14-42 | the ring keeps the newest capacity floats of what was queued followed by the samples; the returned count is capped at the capacity in frames |
| RingBuffers.RingBuffer.Read | src/ring_buffer.cpp:49-64 | the oldest floats, as many as asked for and queued, move to the front of the buffer; the rest of queue and buffer stay |
| RingBuffers.RingBuffer.WriteAvailable | src/ring_buffer.cpp:44-47 | free floats as whole frames |
| RingBuffers.RingBuffer.ReadAvailable | src/ring_buffer.cpp:66-69 | queued floats as whole frames |
| RingBuffers.RingBuffer.Flush | src/ring_buffer.cpp:71-74 | nothing stays queued |
| RingBuffers.ReadsAreOrderedPieces | src/ring_buffer.cpp:14-74 | over every run of writes, reads and flushes, each read returned a contiguous piece of the written stream behind all earlier pieces: floats may be dropped, never repeated, reordered or invented |
| RingBuffers.RunKeepsFrames | src/ring_buffer.cpp:14-64 | whole frames in, whole frames out, over every run |
| RingBuffers.AvailabilitiesAddUp | src/ring_buffer.cpp:14-69 | after every run of whole-frame calls, read_available + write_available = capacity_frames |
| RingBuffers.Perform | src/ring_buffer.cpp:14-74 | each call on the class is one step of the queue the run laws are about |
| RingBuffers.NothingLost | src/ring_buffer.cpp:14-64 | over every run that neither overflows nor flushes, everything read followed by what is queued is everything written |
| RingBuffers.NewestStay | src/ring_buffer.cpp:20-34 | after any run, further writes alone leave the newest capacity floats of the queue and of all they brought |
| Ring.CopyToRing | src/ring_buffer.cpp:76-84 | the window at the position becomes the source, no other slot changes |
| Ring.CopyFromRing | src/ring_buffer.cpp:86-94 | the front of the destination becomes the window at the position |
| Ring.SlotIsMod | src/ring_buffer.cpp:32-60 | the slot used in the proofs is the position modulo the capacity |
| RingInterleaving.StepKeepsInv | src/ring_buffer.cpp:26-64 | every single action of the writer or the reader keeps the ring invariant |
| RingInterleaving.ReachedKeepsInv | src/ring_buffer.cpp:26-64 | the invariant holds in every state any interleaving reaches |
| RingInterleaving.OutputIsPrefixOfWritten | src/ring_buffer.cpp:26-64 | in every interleaving without an overflowing write, what was read is a prefix of what the write calls were given (of one longer than the ring its end), and between calls the ring holds exactly the rest |
| RingInterleaving.WrittenIsOffered | src/ring_buffer.cpp:14-42 | what enters the ring is, call by call, the samples of the write calls, of one longer than the ring its last capacity floats |
| RingInterleaving.ReadHandsOut | src/ring_buffer.cpp:49-64 | a read that has ended has handed out exactly the smaller of its request and the fill when it began, however the writer ran meanwhile |
| RingInterleaving.NeverWaits | src/ring_buffer.cpp:26-64 | a thread inside a call can always make its next step, and between calls can always begin one |
| RingInterleaving.CallLength | src/ring_buffer.cpp:14-64 | a call that copies k floats is k + 2 steps long; a read that finds nothing is none |
| RingInterleaving.CallsEnd | src/ring_buffer.cpp:26-64 | a call ends after exactly that many steps of its own thread, whatever the other thread does: neither thread ever waits |
| JitterConfig.OrderedIsSane | src/jitter_buffer.cpp:11-27 | an ordered millisecond configuration gives thresholds in order that fit a ring of whole frames, despite 32-bit products |
| JitterConfig.SizesExactly | src/jitter_buffer.cpp:5-27 | for an ordered configuration every threshold is the whole number of samples in its milliseconds, half the window to either side of the target |
| JitterConfig.CapacityExactly | src/jitter_buffer.cpp:5-17 | and the ring holds that many samples for every channel |
| JitterBuffers.JitterBuffer.constructor | src/jitter_buffer.cpp:11-27 | the computed sizes, an empty ring, FILLING |
| JitterBuffers.JitterBuffer.Write | src/jitter_buffer.cpp:29-61 | the kept tail is appended to the accepted stream; fill and overflow flag change as the model says |
| JitterBuffers.JitterBuffer.Read | src/jitter_buffer.cpp:63-186 | the caller's floats and the new state are those of the model's plan for this read |
| JitterBuffers.JitterBuffer.ReadSome | src/jitter_buffer.cpp:82-108 | FILLING test, start of PLAYING and overrun snap |
| JitterBuffers.JitterBuffer.ReadPlaying | src/jitter_buffer.cpp:110-186 | underrun, else a paced read |
| JitterBuffers.JitterBuffer.ReadPaced | src/jitter_buffer.cpp:118-183 | at most every interval-th read corrects |
| JitterBuffers.JitterBuffer.ReadDropping | src/jitter_buffer.cpp:137-151 | delivers what was asked for and consumes one frame more |
| JitterBuffers.JitterBuffer.ReadInserting | src/jitter_buffer.cpp:153-170 | consumes one frame less and repeats the last frame channel by channel |
| JitterBuffers.JitterBuffer.ReadPlain | src/jitter_buffer.cpp:172-183 | delivers the next floats and pads with zeros |
| JitterBuffers.JitterBuffer.SnapAfterOverflow | src/jitter_buffer.cpp:66-80 | the reader jumps to the target fill behind the writer |
| JitterBuffers.JitterBuffer.SnapAfterOverrun | src/jitter_buffer.cpp:98-108 | the reader skips the excess over the target fill |
| JitterLaws.ReadInOrder | src/jitter_buffer.cpp:63-186 | a read delivers a piece at or after the reader's position and consumes at most a frame more than asked for; a false read consumes and skips nothing |
| JitterLaws.ReadBoundsFill | src/jitter_buffer.cpp:98-183 | after every read at most max_samples frames are buffered |
| JitterAnswers.FillingAnswers | src/jitter_buffer.cpp:86-94 | a FILLING buffer starts to play, and the read that starts it answers true, exactly when the fill has reached the low mark |
| JitterAnswers.PlayingAnswers | src/jitter_buffer.cpp:110-116 | a PLAYING buffer answers false, counts an underrun and returns to FILLING exactly when the fill is below the minimum |
| JitterAnswers.OverflowAnswers | src/jitter_buffer.cpp:66-116 | after an overflow a read always answers true |
| JitterAnswers.SnapExactly | src/jitter_buffer.cpp:66-108 | a read starts at the target fill behind the writer, counting an overrun, exactly when the writer overflowed or more than the maximum is buffered; any other starts where the last one stopped |
| JitterAnswers.DeliversExactly | src/jitter_buffer.cpp:118-183 | a true read takes one frame less and repeats one below the window, one frame more above it, exactly when its turn has come, and counts it; any other takes what was asked for |
| JitterAnswers.PadsExactly | src/jitter_buffer.cpp:137-183 | float by float: the delivered piece, then for an insertion its last frame channel by channel, else silence |
| JitterAnswers.ZeroRead | src/jitter_buffer.cpp:63-64 | asking for nothing succeeds and changes nothing |
| JitterAnswers.PlayingIsLastAnswer | src/jitter_buffer.cpp:63-186 | over every run the buffer is PLAYING exactly when the last read that asked for anything answered true |
| JitterAnswers.AnswersFollowFills | src/jitter_buffer.cpp:63-186 | over every run each answer is fixed by the fill: true exactly after an overflow, or when the fill reaches the minimum after a true answer and the low mark after a false one |
| JitterRuns.StreamRefinement | src/jitter_buffer.cpp:29-186 | over every run, each read returned a contiguous in-order piece of the accepted stream, then copies of its last frame or zeros; false reads are all zeros; pieces never overlap or go back |
| JitterRuns.StepMovesForward | src/jitter_buffer.cpp:29-186 | the reader's position never moves back, and every move is consumption or a snap |
| JitterRuns.Conservation | src/jitter_buffer.cpp:29-186 | with the overflow flag clear, accepted = consumed + skipped + buffered |
| JitterRuns.Pacing | src/jitter_buffer.cpp:126-132 | interval * corrections + counter never exceeds the reads that returned true |
| JitterRuns.RunOnFrames | src/jitter_buffer.cpp:29-186 | with whole frames in and out no run shifts the channels |
| JitterDrift.SteadyRead | src/jitter_buffer.cpp:98-183 | under a steady load a read neither snaps nor underruns, and corrects by at most one frame |
| JitterDrift.DriftConverges | src/jitter_buffer.cpp:98-183 | the fill is in the target window after at most interval * distance reads and stays; corrections made are exactly the distance |
| JitterDrift.OneFrameInsertion | src/jitter_buffer.cpp:153-170 | an insertion into a one-frame read delivers and consumes what a plain read would, and is counted |
| JitterDrift.OneFrameNeverConverges | src/jitter_buffer.cpp:118-170 | with one-frame reads a fill below the window never moves, while the insertions counted grow by one every interval reads |
| Varint.VarintRoundTrip | src/moq_protocol.cpp:60-132 | a value decodes to itself exactly when it is below 2^62 |
| Varint.VarintDecodes | src/moq_protocol.cpp:60-132 | every 64-bit value decodes to itself modulo 2^62, whatever follows |
| Varint.VarintMinimal | src/moq_protocol.cpp:60-86 | no other encoding of the value is shorter |
| Varint.VarintPrefixFree | src/moq_protocol.cpp:60-86 | no encoding is the start of another |
| Varint.ReadVarintMore | src/moq_protocol.cpp:88-132 | decoding depends only on the bytes it consumes |
| Varint.VarintFormat | src/moq_protocol.cpp:60-86 | 1, 2, 4 or 8 bytes by size, told by the two high bits of the first, the rest the value with its highest byte first |
| Varint.VarintTruncated | src/moq_protocol.cpp:88-132 | an encoding cut anywhere does not decode |
| WireLayout.OneByteVarint | tests/test_moq_protocol.cpp:91-101 | below 64 the byte itself |
| WireLayout.TwoByteVarint | tests/test_moq_protocol.cpp:103-115 | below 16384 two bytes with 0x40 on the first |
| Wire.EncodeNamespace | src/moq_protocol.cpp:145-152 | the loop writes the count and the length-prefixed parts |
| Wire.DecodeNamespace | src/moq_protocol.cpp:154-167 | the loop reads what the recursive reader reads, or fails with it |
| Wire.NamespaceRoundTrip | src/moq_protocol.cpp:145-167 | a namespace comes back, whatever follows |
| Wire.EncodeParams | src/moq_protocol.cpp:177-198 | the bytes are a delta encoding of some key-sorted permutation |
| Wire.DecodeParams | src/moq_protocol.cpp:200-229 | the loop reads what the recursive reader reads, or fails with it |
| Wire.PairRoundTrip | src/moq_protocol.cpp:184-224 | in order no delta is negative, and adding it back gives the key |
| Wire.ParamsRoundTrip | src/moq_protocol.cpp:177-229 | decoding consumes exactly the encoding and returns a key-sorted permutation, values kept by key parity |
| Wire.EncodingIsCanonical | src/moq_protocol.cpp:177-198 | with distinct keys every order of the parameters gives the same bytes |
| Truncation.ParamsTruncated | src/moq_protocol.cpp:200-229 | an encoded parameter list cut anywhere does not parse |
| Framing.BuildControlMessage | src/moq_protocol.cpp:235-244 | type, 16-bit length, content |
| Framing.FrameRoundTrip | src/moq_protocol.cpp:235-270 | the message comes back exactly when its content is below 65536 bytes |
| Framing.FrameTakesThree | src/moq_protocol.cpp:246-270 | every parsed message consumes at least three bytes |
| Framing.ReadFrameMore | src/moq_protocol.cpp:246-270 | a complete message is read the same whatever has arrived behind it |
| WireLayout.FrameBytes | src/moq_protocol.cpp:235-244 | type byte, content length in two bytes with the higher first, content |
| WireLayout.FrameTruncated | src/moq_protocol.cpp:246-270 | a frame cut anywhere is not read: the parser waits for more |
| Messages.BuildSubscribe | src/moq_protocol.cpp:400-456 | a framed SUBSCRIBE with the four moved fields, the token and the host's parameters |
| Messages.ParseSubscribe | src/moq_protocol.cpp:458-498 | fields and parameters, later parameters overwriting earlier ones, or failure |
| Messages.FieldsDefault | src/moq_protocol.cpp:468-473 | without a parameter on its key a field is priority 128, group order 1, forward 1, filter 2 |
| Messages.FieldsDecided | src/moq_protocol.cpp:474-496 | the last parameter on a key decides its field |
| WireLayout.SubscribeBytes | tests/test_moq_protocol.cpp:1019-1061 | a SUBSCRIBE without host parameters byte for byte, the parameters in key order as distances and values |
| Truncation.SubscribeTruncated | src/moq_protocol.cpp:458-498 | a SUBSCRIBE content cut anywhere is refused |
| Messages.SubscribeRoundTrip | src/moq_protocol.cpp:400-498 | through frame and content every field and a key-sorted permutation of all parameters come back |
| Messages.FieldsRecovered | src/moq_protocol.cpp:400-498 | the four fields come back under every sort order exactly when no host parameter on one of their keys disagrees |
| Messages.PlainExtrasRoundTrip | src/moq_protocol.cpp:400-498 | the same for any host parameters that avoid the four keys of the moved fields |
| Messages.HostPriorityCanWin | src/moq_protocol.cpp:400-498 | a host parameter on the priority key, as the subscribe callback makes it, can replace the configured priority |
| Messages.BuildSubscribeOk | src/moq_protocol.cpp:504-537 | a framed SUBSCRIBE_OK with only the parameters that differ from absent |
| Messages.ParseSubscribeOk | src/moq_protocol.cpp:539-577 | ids and parameters, or failure |
| Messages.SubscribeOkRoundTrip | src/moq_protocol.cpp:504-577 | every field comes back |
| Messages.OkDecided | src/moq_protocol.cpp:551-575 | the last parameter on a key decides expiry, order and location; other parameters change nothing |
| WireLayout.SubscribeOkBytes | src/moq_protocol.cpp:504-537 | a SUBSCRIBE_OK with every optional parameter byte for byte |
| Truncation.SubscribeOkTruncated | src/moq_protocol.cpp:539-577 | a SUBSCRIBE_OK content cut anywhere is refused |
| Messages.BuildAnnounce | src/moq_protocol.cpp:602-609 | a framed ANNOUNCE with no parameters |
| Messages.ParseAnnounce | src/moq_protocol.cpp:611-622 | id, namespace and parameters, or failure |
| Messages.AnnounceRoundTrip | src/moq_protocol.cpp:602-622 | id and namespace come back |
| WireLayout.AnnounceBytes | src/moq_protocol.cpp:602-609 | an ANNOUNCE byte for byte |
| Truncation.AnnounceTruncated | src/moq_protocol.cpp:611-622 | an ANNOUNCE content cut anywhere is refused |
| ControlStream.Transport.DrainAndParse | src/moq_transport.cpp:488-544 | every complete message of buffer and queue is dispatched in order, the rest stays buffered, and SERVER_SETUP makes the session ready |
| ControlStream.ParseAllAppend | src/moq_transport.cpp:502-543 | parsing may stop anywhere and go on when more has arrived |
| ControlStream.ChunkInPlace | src/moq_transport.cpp:488-500 | every chunk queued lies whole in the stream, between those before it and those behind it |
| ControlStream.ChunkingIndependence | src/moq_transport.cpp:488-543 | however bytes are cut into chunks and calls, the messages dispatched and the leftover are those of parsing them at once |
| ControlStream.FramesParse | src/moq_transport.cpp:502-543 | a stream of built messages is dispatched as exactly those messages |
| ControlStream.BuiltMessagesAnyChunking | src/moq_transport.cpp:488-543 | the same under any chunking, with nothing left over |
| Truncation.ReadyExactly | src/moq_transport.cpp:522-527 | of all messages carrying a parameter list, whole or cut, exactly type 0x21 with the whole list makes the session ready |
| Datagrams.BuildObjectDatagram | src/moq_protocol.cpp:276-289 | the header followed by the payload |
| Datagrams.BuildObjectDatagramHeader | src/moq_protocol.cpp:291-302 | the same header at the front of the caller's buffer, the rest untouched |
| Datagrams.ParseObjectDatagram | src/moq_protocol.cpp:304-356 | ids, priority and payload, extensions skipped one by one, or failure |
| Datagrams.DatagramRoundTrip | src/moq_protocol.cpp:276-356 | what is built is what is parsed |
| WireLayout.HeaderBytes | src/moq_protocol.cpp:291-302 | with small ids the header is 0, alias, group, object, priority |
| WireLayout.OtherTypesDropped | src/moq_protocol.cpp:309-311 | a datagram of any type but 0 and 1 is refused |
| Datagrams.ExtensionsChangeNothing | src/moq_protocol.cpp:333-350 | an object with any extension list parses like the plain one |
| CacheWire.EncodeCacheOp | src/cache_wire.cpp:114-151 | the buffer filled step by step is the envelope of the op cut to the field limits |
| CacheWire.DecodeCacheOp | src/cache_wire.cpp:61-112 | field by field with bounds checks, or nothing |
| CacheWire.CacheRoundTrip | src/cache_wire.cpp:61-151 | an envelope decodes to its op cut to 255, 65535 and 2^32 - 1 bytes, whatever follows |
| CacheWire.StrictPrefixRejected | src/cache_wire.cpp:61-112 | every strict prefix of an envelope is rejected |
| WireLayout.EnvelopeBytes | src/cache_wire.cpp:61-112 | 0xCA, flags, op id, node id, then topic, key and value behind lengths of 1, 2 and 4 bytes, highest byte first |
| CacheWire.Reencodes | src/cache_wire.cpp:61-151 | what is accepted is, up to reserved flag bits, the encoding of the op it gives, with bytes possibly behind it |
| KeyOrder.LowerBound | src/cache_map.cpp:87-88 | the first position whose key is not before the given one |
| KeyOrder.LessIsFirstDifference | include/panaudia/cache_map.h:102 | the order is that of std::string: the first differing byte decides, and a proper prefix comes first |
| KeyOrder.PrefixesAreContiguous | src/cache_map.cpp:89-94 | from the prefix on, once a key does not match no later key does, so leaving the scan is sound |
| KeyOrder.SortedIsUnique | src/cache_map.cpp:67-73 | the sorted listing of a set of keys is unique |
| CacheMaps.CacheMap.Merge | src/cache_map.cpp:11-56 | new map, highest id, result and handler call; the sorted key order is kept |
| CacheMaps.ResultTells | src/cache_map.cpp:22-55 | Rejected exactly when an entry as new stays and nothing changes; Tombstoned leaves the key absent; Accepted leaves it holding the op |
| CacheMaps.OthersUntouched | src/cache_map.cpp:22-55 | a merge touches no key but its own |
| CacheMaps.EventTells | src/cache_map.cpp:30-55 | the handler is called once when the map changes and not at all when it does not |
| CacheMaps.CacheMap.Get | src/cache_map.cpp:58-65 | the entry, if present |
| CacheMaps.CacheMap.Clear | src/cache_map.cpp:112-116 | everything dropped, highest id 0, no handler call |
| CacheMaps.CacheMap.ForEachPrefix | src/cache_map.cpp:75-95 | visits exactly the entries whose key starts with the prefix, once each, in key order |
| CacheMaps.CacheMap.ForEach | src/cache_map.cpp:67-73 | visits every entry once in key order |
| CacheMaps.ScanIsDetermined | src/cache_map.cpp:75-95 | the scan equals filtering the whole map by the prefix |
| MergeRuns.MirrorFollows | src/cache_map.cpp:18-55 | a mirror fed only by handler calls equals the map over every run |
| MergeRuns.HighestSeen | src/cache_map.cpp:14-20 | the highest id is the maximum of all delivered, rejected ones included |
| MergeRuns.FinalEntry | src/cache_map.cpp:11-56 | after any log a key is held exactly when some set outlives every later tombstone, and holds the newest such set |
| MergeRuns.NewestSetWins | src/cache_map.cpp:11-56 | if the newest op on a key is a set, it is the entry in any delivery order |
| MergeRuns.NewestTombstone | src/cache_map.cpp:11-56 | if it is a tombstone, the key is absent exactly when every set is followed by a newer tombstone |
| MergeRuns.NewestTombstoneErases | src/cache_map.cpp:11-56 | so it is absent when no set arrives after it |
| MergeRuns.NewestRulesExactly | include/panaudia/cache_map.h:65-68 | the documented rule holds of exactly the orderly logs |
| MergeRuns.LateSetReturns | src/cache_map.cpp:22-38 | a set with id 5 after a tombstone with id 10 brings the key back |
| MergeRuns.OrderlyLogsConverge | src/cache_map.cpp:11-56 | the same ops in any two orderly deliveries, repeats included, leave the same cache |
| MergeRuns.TombstoneFreeConverges | src/cache_map.cpp:11-56 | without tombstones order never matters |
| MergeRuns.ReplayIsIdempotent | src/cache_map.cpp:11-56 | delivering any whole log again changes nothing |
| TopicMergers.TopicMerger.ApplyEnvelope | src/topic_merger.cpp:103-171 | a bad envelope only counts an error; otherwise every usable op is merged and reported in turn, with counters and debug record |
| TopicMergers.TopicMerger.MergeItems | src/topic_merger.cpp:25-89 | the batch loop merges the ops with usable keys in order and sorts them into the outcome lists |
| TopicMergers.EnvelopeEffect | src/topic_merger.cpp:25-89 | with one item per key, each key not held as new ends absent for a tombstone and otherwise holding the value with the envelope's id and node, and is listed in the matching bucket with that value; a stale one is kept and listed as rejected |
| TopicMergers.EnvelopeSpares | src/topic_merger.cpp:25-89 | keys no usable item names keep their entries |
| TopicMergers.UnusableDoesNothing | src/topic_merger.cpp:32-37 | an item that is no object or has no non-empty string key changes and reports nothing |
| TopicMergers.BuiltIsOpened | src/topic_merger.cpp:103-158 | an encoded envelope is opened by its JSON: a list, a single object, or an error |
| TopicMergers.BatchAccounts | src/topic_merger.cpp:64-88 | every op that reached the cache is reported exactly once |
| TopicMergers.EntryStands | src/topic_merger.cpp:129-149 | an entry stands against ops no newer than it, as the later items of its own envelope are |
| TopicMergers.ResumeIsComplete | src/topic_merger.cpp:186-188 | cut anywhere and continued above the resume id on the same cache, a log of increasing ids leaves the same cache |
| TopicMergers.ResumeExactly | src/topic_merger.cpp:186-188 | it does so at every cut exactly when nothing with id 0 sets a key |
| TopicMergers.EncodeResumeOpId | src/topic_merger.cpp:9-16 | eight big-endian bytes |
| TopicMergers.ResumeIdArrives | include/panaudia/topic_merger.h:17-25 | the parameter carries the id to the peer unchanged |
| Backoff.CalculateDelay | src/session_manager.cpp:349-359 | the first wrapped doubling to reach the cap gives the cap, else the last doubling |
| Backoff.DelayExactly | src/session_manager.cpp:349-359 | the delay is min(base * 2^attempt, cap) exactly under the stated condition |
| Backoff.DelayInRange | src/session_manager.cpp:349-359 | it is for base <= cap <= 2^31, base < 2^31 |
| Backoff.LargeBaseWraps | src/session_manager.cpp:349-359 | base 2^31 with a larger cap gives delay 0 |
| Reconnects.Connection.HandleTransportStateChange | src/session_manager.cpp:234-322 | the new state for every transport report, in and out of a reconnect cycle |
| Reconnects.Connection.ProcessReports | src/session_manager.cpp:539-541 | the reports of one turn, in order |
| ReconnectRuns.ReadyOpens | src/session_manager.cpp:246-256 | Ready of a held transport opens the connection in a cycle or outside one: Connected, attempt 0, and the host is told once |
| ReconnectRuns.CycleIgnores | src/session_manager.cpp:239-245 | in a cycle a transport going down, dialing or linking up changes nothing |
| ReconnectRuns.OutsideShows | src/session_manager.cpp:284-292 | outside one, down is Disconnected and dialing or linked is Connecting, and the host is told |
| ReconnectRuns.LossOutside | src/session_manager.cpp:297-321 | a loss outside a cycle starts one due at once, or is Failed when reconnecting is off or the host is disconnecting |
| ReconnectRuns.LossInside | src/session_manager.cpp:258-280 | a loss in a cycle puts the attempt off by the delay, or ends the cycle as Failed |
| Sessions.SessionManager.AttemptReconnect | src/session_manager.cpp:365-421 | counts, gives up past the limit, else replaces the transport, resets the protocol state, flushes the rings and dials |
| Sessions.SessionManager.Connect | src/session_manager.cpp:427-477 | refused while busy; else a fresh dial and the session thread |
| Sessions.SessionManager.Disconnect | src/session_manager.cpp:483-525 | a no-op when stopped; else thread and transport are gone, the protocol state is reset and the rings are empty |
| Sessions.SessionManager.SessionTurn | src/session_manager.cpp:531-547 | one turn: the timer check, the transport's reports and messages, and the requests once the transport is ready |
| Sessions.ReconnectedRequests | src/session_manager.cpp:328-343 | after an attempt within the limit the next ready transport gets the session's first requests again |
| Sessions.RequestsOnce | src/session_manager.cpp:541-547 | requests go out exactly on a ready transport that has not had them, numbered on from the next id; otherwise no id is used |
| Sessions.ResetsExactlyOnDial | src/session_manager.cpp:365-421 | the protocol state is reset exactly by the attempts that replace the transport |
| ReconnectRuns.AttemptOutcome | src/session_manager.cpp:365-421 | how a due attempt ends, case by case, including the deadline it leaves and the give-up that ends Disconnected |
| ReconnectRuns.ConnectOutcome | src/session_manager.cpp:427-477 | how connect() ends, including a dial that cannot start |
| ReconnectRuns.ConnectRefusedExactly | src/session_manager.cpp:427-445 | connect() changes nothing exactly while connecting, connected or reconnecting; a bad URL is Failed |
| ReconnectRuns.ConnectReports | src/session_manager.cpp:427-477 | everything the host is told by an accepted connect(), in order |
| ReconnectRuns.AttemptReports | src/session_manager.cpp:365-421 | everything it is told by an attempt: nothing, unless the cycle ends |
| ReconnectRuns.DisconnectReports | src/session_manager.cpp:483-525 | everything it is told by disconnect() |
| ReconnectRuns.DisconnectOutcome | src/session_manager.cpp:483-525 | disconnect() ends stopped: no thread, no transport, not reconnecting, Disconnected last reported |
| ReconnectRuns.RunKeepsInv | src/session_manager.cpp:234-421 | over every run reconnecting_ is exactly the Reconnecting state, the host was last told the state, and a cycle makes at most max + 1 attempts and max transports |
| ReconnectRuns.OnlyReadyConnects | src/session_manager.cpp:234-322 | in any step only a transport's Ready report turns the state into Connected |
| ReconnectRuns.ConnectedExactly | src/session_manager.cpp:234-525 | over every run the state is Connected exactly when a held transport reported Ready and since then neither disconnect() nor another report came |
| ReconnectCycles.LossBacksOff | src/session_manager.cpp:258-266 | after a loss reported in a cycle no attempt is due before min(base * 2^attempt, cap) has passed |
| ReconnectRuns.RunAbortsExactly | src/session_manager.cpp:473-476 | a run ends the process exactly when an accepted connect() whose dial starts finds the session thread running |
| ReconnectRuns.ConnectAfterLossAborts | src/session_manager.cpp:427-477 | it can: with reconnecting off, connect, loss, connect |
| ReconnectCycles.BackoffExactly | src/session_manager.cpp:531-541 | a turn with a due attempt before the last and no Ready is followed by the configured delay exactly when its dial could not start, it brought a report of loss, or the delay is 0 |
| ReconnectCycles.SilentCycle | src/session_manager.cpp:531-537 | a cycle whose dials start and stay silent lasts exactly max - attempt more turns whatever the delays, and for ever at the 32-bit limit |
| ReconnectCycles.FailedIsFinalExactly | src/session_manager.cpp:283-321 | while the host does nothing Failed lasts exactly when no transport is kept |
| ReconnectCycles.GivingUpExactly | src/session_manager.cpp:370-381 | the timer check past the limit gives up for good exactly when there is no transport |
| ReconnectCycles.GivingUpOnLoss | src/session_manager.cpp:258-278 | giving up on a reported loss keeps the transport and so is never for good |
| ReconnectCycles.LossAfterGivingUpRestarts | src/session_manager.cpp:297-314 | a loss reported by a kept transport starts a new cycle from attempt 0, due at once |
| ReconnectCycles.RetriesUnboundedExactly | src/session_manager.cpp:297-421 | without any call of the host the attempts are unbounded exactly when the limit is not 0 |
| ReconnectRuns.DisconnectIsFinal | src/session_manager.cpp:483-525 | after disconnect() nothing changes and nothing is reported until the next connect() or configure() |
| ReconnectRuns.FailedDialIsStuck | src/session_manager.cpp:466-471 | a first dial that cannot start leaves Reconnecting, which only disconnect() ends |
| Orchestration.Signalling.ResetMoqState | src/session_manager.cpp:328-343 | maps empty, counters at their start, every track cleared |
| Orchestration.Signalling.StartOrchestration | src/session_manager.cpp:563-634 | the requests sent and the ids recorded, in order |
| Orchestration.Signalling.HandleControlMessage | src/session_manager.cpp:640-794 | state and replies for any message content |
| OrchestrationLaws.OkGivesAlias | src/session_manager.cpp:654-658 | a SUBSCRIBE_OK for a known request id gives that track its alias and routes the alias to it, and changes nothing else |
| OrchestrationLaws.OkForNobody | src/session_manager.cpp:647-669 | any other SUBSCRIBE_OK does nothing |
| OrchestrationLaws.SubscribeGetsAlias | src/session_manager.cpp:699-722 | a SUBSCRIBE gives the next alias to the first outbound track under its namespace and is answered with its own id and that alias |
| OrchestrationLaws.SubscribeForNobody | src/session_manager.cpp:699-737 | a SUBSCRIBE under whose namespace no outbound track lies does nothing |
| OrchestrationLaws.AnnouncementsAcknowledged | src/session_manager.cpp:740-780 | ANNOUNCE and SUBSCRIBE_ANNOUNCES are acknowledged with their own id |
| OrchestrationLaws.OthersIgnored | src/session_manager.cpp:782-794 | other messages, and those that do not parse, do nothing |
| OrchestrationLaws.IdsAreABijection | src/session_manager.cpp:563-634 | request ids are a bijection between tracks and 0, 2, ..., 2(n - 1), inbound first |
| OrchestrationLaws.RequestsSent | src/session_manager.cpp:563-634 | one SUBSCRIBE per inbound track (priority 128, ascending order, forward 1, latest group, the host's parameters), then one ANNOUNCE per outbound track; only the first SUBSCRIBE carries the token |
| OrchestrationLaws.ControlArrives | src/session_manager.cpp:563-780 | a peer that parses anything we send finds the message type, ids, namespace and name it is meant to carry |
| OrchestrationLaws.AnsweredExactly | src/session_manager.cpp:647-669 | a SUBSCRIBE_OK keeps the alias maps consistent exactly when it answers a subscription or repeats an alias that already leads back |
| OrchestrationLaws.AliasesStayConsistent | src/session_manager.cpp:640-794 | over any messages from a peer that answers only subscriptions, each outbound track's alias leads back to it and no alias changes its track |
| OrchestrationLaws.SessionAliases | src/session_manager.cpp:563-794 | the same from the first request of a session on |
| OrchestrationLaws.AliasesAreFresh | src/session_manager.cpp:709-732 | the aliases we hand out are consecutive, hence each is fresh, whatever the peer sends |
| OrchestrationLaws.LastAnswerCounts | src/session_manager.cpp:647-658 | over any messages an inbound track has the alias of the last SUBSCRIBE_OK that answered it, and an alias leads to the last track it was given |
| OrchestrationLaws.DatagramsReachTheirTracks | src/session_manager.cpp:209-225 | if the peer uses no alias for two tracks, every alias it has given an inbound track leads datagrams to that track |
| OrchestrationLaws.ReconnectStartsOver | src/session_manager.cpp:328-343 | whatever the peer sent, resetting brings back the state the session started from |
| OrchestrationLaws.ResetForgets | src/session_manager.cpp:328-343 | a reset keeps direction, namespace and name of every track and nothing else |
| PcmPipeline.PcmFrame | src/opus_codec.cpp:289-295 | the floats' bytes at the front of the output |
| PcmPipeline.PcmUnframe | src/opus_codec.cpp:297-307 | nothing for no channels or misaligned data, else the floats and the frame count |
| PcmPipeline.FrameUnframe | src/opus_codec.cpp:289-307 | whole frames come back |
| PcmPipeline.UnframesExactly | src/opus_codec.cpp:297-307 | unframing gives exactly the floats whose bytes these are, and only when they are whole frames |
| PcmPipeline.BytesAt | src/opus_codec.cpp:289-295 | each float lies in its four bytes as in memory |
| PcmPipeline.FramesInExactly | src/session_manager.cpp:111-137 | milliseconds become as many whole frames as fit in them |
| PcmPipeline.PcmTrack.constructor | src/session_manager.cpp:106-148 | ring and buffers sized for the track |
| PcmPipeline.PcmTrack.SendPcmFrame | src/session_manager.cpp:888-918 | every whole frame queued goes out as one datagram, ids counting up, less than a frame stays; the loop ends |
| PcmPipeline.PcmTrack.SendOne | src/session_manager.cpp:894-916 | one frame read, framed, headed and sent |
| PcmPipeline.PcmTrack.PollOutbound | src/session_manager.cpp:840-852 | a track without an alias is passed over, any other is sent |
| PcmPipeline.PeerHearsOrderedPieces | src/session_manager.cpp:709-918 | over every run of writes, sends, flushes, new aliases and resets, the peer hears pieces of the written stream, one whole datagram each, in order and without overlap; since the last reset the object ids are 0, 1, 2, ..., in group 0 with priority 128 |
| PcmPipeline.PeerHearsPrefix | src/session_manager.cpp:888-918 | when nothing overflows, is flushed or reset, what the peer hears followed by what is queued is what was written; less than a datagram's worth stays after a send |

## Left out

- QUIC handles, stream and connection callbacks, TLS setup and send buffers: foreign calls; a transport is what it reports.
- Opus encoding and decoding and the Opus send path: foreign and lossy.
- JSON parsing and serialising: an envelope's value is a list of item records given by a function parameter.
- Logging, URL parsing, the clock and sleeping: results and times are parameters; one session turn sees one time.
- Memory order: the interleaving of the outbound ring is sequentially consistent; stores and loads are single steps.
- Steps inside an overflowing outbound write, a flush against a live writer, and inside jitter buffer calls: whole calls only, the code promising nothing finer.
- Statistics in milliseconds and ratios, and the wrap of 32-bit and 64-bit statistics counters: samples are opaque, counters unbounded.
- Allocation failure and re-entrant callbacks.
- Track handles: indices into the list of tracks instead of pointers, so aliasing between handles is not modelled.
- Host parameters are given by a function of the track; update_jwt between sessions is a new value of the token.
- configure() is a life-cycle step taken only while stopped; building encoders, decoders and inbound buffers is not part of it.
- connect() on the host's thread and the session thread's turns are atomic steps; replacing a running thread object is modelled as the end of the process, after which nothing is claimed.
- CLIENT_SETUP, and the log lines of SUBSCRIBE_ERROR and ANNOUNCE_OK, which change no state.
- Sessions.SessionManager.SessionTurn: polling the outbound tracks at the end of a turn is PcmPipeline.PcmTrack.PollOutbound, on its own state; track numbers are kept both there and in Orchestration.Track.
- RingBuffers.RingBuffer.Write: capacity and one write are below 2^31 and 2^32 floats, where the 32-bit products do not wrap.
- RingBuffers.RingBuffer.Read: a request is below 2^32 floats, likewise.
- PcmPipeline.PcmFrame: the byte count is below 2^32, likewise.
- PcmPipeline.PcmUnframe: the data fits the receiving buffer, which the code does not check.
- PcmPipeline.PcmTrack.constructor: buffer sizes are below 2^32, likewise; the sample-rate products do wrap as in the code.
- JitterBuffers.JitterBuffer.Read: asks for whole frames, as the header requires of callers, and a request below 2^31 floats.
- JitterBuffers.JitterBuffer.constructor: the thresholds are in order and fit the ring, which JitterConfig.OrderedIsSane gives for ordered configurations.
- ControlStream.Transport.DrainAndParse: buffer and queue together stay below 2^31 bytes, the range of the code's offsets; the connection-event flags it looks at first are transport reports of the life-cycle model.
- Varint.Parse and every reader built on it: a length field too large for the code's 32-bit offsets is answered Overlong, of which nothing is claimed; the code then computes with a wrapped offset.
- ReconnectRuns.RunKeepsInv: limits below 2^32 - 1; at that limit the counter wraps and a silent cycle never ends, which ReconnectCycles.SilentCycle states. The bound is per cycle, as ReconnectCycles.RetriesUnboundedExactly says.
- OrchestrationLaws.AliasesStayConsistent: fewer than 2^64 aliases are handed out, so the counter does not wrap.
- PcmPipeline.PcmTrack.SendPcmFrame: a frame size above zero; with zero the code's loop would not end.
- PcmPipeline.PeerHearsPrefix: fewer than 2^62 floats in a run, so object ids stay varints; the same holds of PcmPipeline.PeerHearsOrderedPieces.
