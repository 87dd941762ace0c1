/** Merging the batch of ops inside each cache envelope, and resuming after a reconnect. */
module TopicMergers {
  import opened Bytes
  import opened Wire
  import opened CacheWire
  import opened CacheMaps
  import opened MergeRuns

  /** One element of the envelope's JSON; `value` is what dump() makes of it, `key` is there only if a string. */
  datatype Item = NotAnObject | Fields(key: Option<Str>, tombstone: bool, value: Option<Str>)

  /** The envelope's JSON, already parsed. */
  datatype Doc = Discarded | Items(items: seq<Item>) | Single(item: Item) | Scalar

  function CacheOpOf(item: Item, envelope: CacheOp): Option<CacheOp> {
    if item.NotAnObject? || item.key.None? || item.key.value == [] then None
    else
      var value := if item.tombstone || item.value.None? then [] else item.value.value;
      Some(envelope.(key := item.key.value, value := value, tombstone := item.tombstone))
  }

  /** The ops that reach the cache: an item without a usable key is passed over. */
  function OpsOf(items: seq<Item>, envelope: CacheOp): seq<CacheOp> {
    if items == [] then []
    else
      var init := OpsOf(items[..|items| - 1], envelope);
      match CacheOpOf(items[|items| - 1], envelope)
      case None => init
      case Some(op) => init + [op]
  }

  /** The envelope and its items, or None for what is dropped as an error. */
  function Opened(data: seq<byte>, parse: Str -> Doc): Option<(CacheOp, seq<Item>)> {
    if !IsEnvelope(data) then None
    else
      match Decode(data)
      case None => None
      case Some(envelope) =>
        match parse(envelope.value)
        case Items(items) => Some((envelope, items))
        case Single(item) => Some((envelope, [item]))
        case _ => None
  }

  /** What an envelope brings to the cache; nothing if it is dropped. */
  function OpsIn(data: seq<byte>, parse: Str -> Doc): seq<CacheOp> {
    match Opened(data, parse)
    case None => []
    case Some((envelope, items)) => OpsOf(items, envelope)
  }

  datatype Batch = Batch(accepted: seq<(Str, Str)>, tombstoned: seq<Str>, rejected: seq<Str>)

  const NO_CHANGE := Batch([], [], [])

  function Reported(b: Batch, op: CacheOp, result: MergeResult): Batch {
    match result
    case Accepted => b.(accepted := b.accepted + [(op.key, op.value)])
    case Tombstoned => b.(tombstoned := b.tombstoned + [op.key])
    case Rejected => b.(rejected := b.rejected + [op.key])
  }

  /** The outcome lists of merging `ops` in turn. */
  function BatchFrom(c: Cache, ops: seq<CacheOp>): Batch {
    if ops == [] then NO_CHANGE
    else
      var init, op := ops[..|ops| - 1], ops[|ops| - 1];
      Reported(BatchFrom(c, init), op, ResultOf(RunFrom(c, init).entries, op))
  }

  datatype DebugInfo = DebugInfo(topic: Str, opId: u64, opCount: nat, outcome: Batch)

  const EMPTY_OP := CacheOp([], [], [], 0, 0, false)

  lemma NothingYet(c: Cache)
    ensures RunFrom(c, []) == c && BatchFrom(c, []) == NO_CHANGE && EventsFrom(c, []) == [] && OpsOf([], EMPTY_OP) == []
  {
  }

  lemma OneMore(c: Cache, ops: seq<CacheOp>, op: CacheOp)
    ensures var now := RunFrom(c, ops);
      && RunFrom(c, ops + [op]) == Merged(now, op)
      && BatchFrom(c, ops + [op]) == Reported(BatchFrom(c, ops), op, ResultOf(now.entries, op))
      && EventsFrom(c, ops + [op]) == EventsFrom(c, ops) + EventsOf(now.entries, op)
  {
    assert (ops + [op])[..|ops|] == ops;
  }

  class TopicMerger {
    const cache: CacheMap
    var debugHandled: bool
    var debugCalls: seq<DebugInfo>
    var updatesReceived: nat
    var errorsDropped: nat

    ghost predicate Valid()
      reads this, cache
    {
      cache.Valid()
    }

    /** Borrowing a cache keeps the resume point across subscriber lifetimes. */
    constructor (cache: CacheMap)
      ensures this.cache == cache && !debugHandled && debugCalls == []
      ensures updatesReceived == 0 && errorsDropped == 0
    {
      this.cache, debugHandled, debugCalls, updatesReceived, errorsDropped := cache, false, [], 0, 0;
    }

    /** The batch loop. */
    method MergeItems(items: seq<Item>, envelope: CacheOp) returns (outcome: Batch)
      requires Valid()
      modifies this`updatesReceived, cache`keys, cache`entries, cache`highestOpId, cache`events
      ensures Valid() && cache.View() == RunFrom(old(cache.View()), OpsOf(items, envelope))
      ensures outcome == BatchFrom(old(cache.View()), OpsOf(items, envelope))
      ensures updatesReceived == old(updatesReceived) + |outcome.accepted| + |outcome.tombstoned|
      ensures cache.events
              == old(cache.events) + if cache.handled then EventsFrom(old(cache.View()), OpsOf(items, envelope)) else []
    {
      hide RunFrom, BatchFrom, EventsFrom, CacheOpOf, Merged, ResultOf, EventsOf;
      outcome := NO_CHANGE;
      ghost var ops: seq<CacheOp> := [];
      NothingYet(cache.View());
      for i := 0 to |items|
        invariant Valid() && ops == OpsOf(items[..i], envelope)
        invariant cache.View() == RunFrom(old(cache.View()), ops)
        invariant outcome == BatchFrom(old(cache.View()), ops)
        invariant updatesReceived == old(updatesReceived) + |outcome.accepted| + |outcome.tombstoned|
        invariant cache.events == old(cache.events) + if cache.handled then EventsFrom(old(cache.View()), ops) else []
      {
        assert items[..i + 1][..i] == items[..i];
        var op := CacheOpOf(items[i], envelope);
        if op.Some? {
          OneMore(old(cache.View()), ops, op.value);
          var result := cache.Merge(op.value);
          ops := ops + [op.value];
          outcome := Reported(outcome, op.value, result);
          if result != Rejected {
            updatesReceived := updatesReceived + 1;
          }
        }
      }
      assert items[..|items|] == items;
    }

    /** A bad envelope changes nothing but the error count; otherwise every op is merged and reported in turn. */
    method ApplyEnvelope(data: seq<byte>, parse: Str -> Doc) returns (r: Option<Batch>)
      requires Valid()
      modifies this`debugCalls, this`updatesReceived, this`errorsDropped
      modifies cache`keys, cache`entries, cache`highestOpId, cache`events
      ensures Valid() && cache.View() == RunFrom(old(cache.View()), OpsIn(data, parse))
      ensures cache.events
              == old(cache.events) + if cache.handled then EventsFrom(old(cache.View()), OpsIn(data, parse)) else []
      ensures match Opened(data, parse)
        case None =>
          r == None && errorsDropped == old(errorsDropped) + 1
          && updatesReceived == old(updatesReceived) && debugCalls == old(debugCalls)
        case Some((envelope, items)) =>
          var b := BatchFrom(old(cache.View()), OpsIn(data, parse));
          && r == Some(b) && errorsDropped == old(errorsDropped)
          && updatesReceived == old(updatesReceived) + |b.accepted| + |b.tombstoned|
          && debugCalls == old(debugCalls)
                           + if debugHandled then [DebugInfo(envelope.topic, envelope.opId, |items|, b)] else []
    {
      hide RunFrom, BatchFrom, EventsFrom, OpsOf, Decode;
      NothingYet(cache.View());
      r := None;
      if !IsEnvelope(data) {
        errorsDropped := errorsDropped + 1;
        return;
      }
      var decoded := DecodeCacheOp(data);
      if decoded == None {
        errorsDropped := errorsDropped + 1;
        return;
      }
      var envelope := decoded.value;
      var items: seq<Item>;
      match parse(envelope.value) {
        case Items(list) => items := list;
        case Single(item) => items := [item];
        case Discarded =>
          errorsDropped := errorsDropped + 1;
          return;
        case Scalar =>
          errorsDropped := errorsDropped + 1;
          return;
      }
      assert Opened(data, parse) == Some((envelope, items));
      var outcome := MergeItems(items, envelope);
      if debugHandled {
        debugCalls := debugCalls + [DebugInfo(envelope.topic, envelope.opId, |items|, outcome)];
      }
      r := Some(outcome);
    }
  }

  // ---- What a batch reports ------------------------------------------------------------

  function Keys(ops: seq<CacheOp>): (ks: seq<Str>)
    ensures |ks| == |ops| && forall i :: 0 <= i < |ks| ==> ks[i] == ops[i].key
  {
    seq(|ops|, i requires 0 <= i < |ops| => ops[i].key)
  }

  function FirstOf(pairs: seq<(Str, Str)>): (ks: seq<Str>)
    ensures |ks| == |pairs| && forall i :: 0 <= i < |ks| ==> ks[i] == pairs[i].0
  {
    seq(|pairs|, i requires 0 <= i < |pairs| => pairs[i].0)
  }

  function KeysReported(b: Batch): multiset<Str> {
    multiset(FirstOf(b.accepted)) + multiset(b.tombstoned) + multiset(b.rejected)
  }

  lemma ReportedOnce(b: Batch, op: CacheOp, result: MergeResult)
    ensures KeysReported(Reported(b, op, result)) == KeysReported(b) + multiset{op.key}
  {
    assert FirstOf(b.accepted + [(op.key, op.value)]) == FirstOf(b.accepted) + [op.key];
  }

  lemma NothingReported()
    ensures KeysReported(NO_CHANGE) == multiset{} && Keys([]) == []
  {
    assert FirstOf([]) == [];
  }

  /** Every op that reached the cache is reported exactly once. */
  lemma {:induction false} BatchAccounts(c: Cache, ops: seq<CacheOp>)
    ensures KeysReported(BatchFrom(c, ops)) == multiset(Keys(ops))
  {
    hide RunFrom, ResultOf, KeysReported, Reported;
    if ops == [] {
      NothingReported();
    } else {
      var init, op := ops[..|ops| - 1], ops[|ops| - 1];
      BatchAccounts(c, init);
      ReportedOnce(BatchFrom(c, init), op, ResultOf(RunFrom(c, init).entries, op));
      assert Keys(ops) == Keys(init) + [op.key];
    }
  }

  /** An entry stands against ops no newer than it, so the items of one envelope never replace each other's sets. */
  lemma {:induction false} EntryStands(c: Cache, ops: seq<CacheOp>, k: Str)
    requires k in c.entries && forall op :: op in ops && op.key == k ==> op.opId <= c.entries[k].opId
    ensures k in RunFrom(c, ops).entries && RunFrom(c, ops).entries[k] == c.entries[k]
  {
    if ops != [] {
      var init, op := ops[..|ops| - 1], ops[|ops| - 1];
      assert ops == init + [op];
      EntryStands(c, init, k);
      assert op in ops;
    }
  }

  // ---- What an item does -----------------------------------------------------------------

  /** An item the merger can use: an object whose key is a string that is not empty. */
  predicate Usable(item: Item) {
    item.Fields? && item.key.Some? && item.key.value != []
  }

  /** Any other is passed over: it reaches neither the cache nor the outcome. */
  lemma UnusableDoesNothing(c: Cache, item: Item, e: CacheOp)
    requires !Usable(item)
    ensures RunFrom(c, OpsOf([item], e)) == c && BatchFrom(c, OpsOf([item], e)) == NO_CHANGE
  {
    assert [item][..0] == [];
    assert OpsOf([], e) == [];
  }

  /** The value a set stores: the item's, or nothing when it has none. */
  function ValueSet(item: Item): Str
    requires item.Fields?
  {
    match item.value
    case Some(v) => v
    case None => []
  }

  /** The envelope loses to what the cache holds. */
  predicate Stale(c: Cache, k: Str, e: CacheOp) {
    k in c.entries && e.opId <= c.entries[k].opId
  }

  /** What becomes of the item's key: kept if the envelope is stale, erased by a tombstone, else set. */
  ghost predicate KeyDone(c: Cache, item: Item, e: CacheOp, after: map<Str, Entry>)
    requires Usable(item)
  {
    var k := item.key.value;
    if Stale(c, k, e) then k in after && after[k] == c.entries[k]
    else if item.tombstone then k !in after
    else k in after && after[k] == Entry(ValueSet(item), e.opId, e.nodeId)
  }

  /** Where the outcome lists it, and with what value. */
  ghost predicate KeyListed(c: Cache, item: Item, e: CacheOp, b: Batch)
    requires Usable(item)
  {
    var k := item.key.value;
    if Stale(c, k, e) then k in b.rejected
    else if item.tombstone then k in b.tombstoned
    else (k, ValueSet(item)) in b.accepted
  }

  lemma UsableOp(item: Item, e: CacheOp)
    requires Usable(item)
    ensures var o := CacheOpOf(item, e);
      && o.Some? && o.value.key == item.key.value && o.value.opId == e.opId && o.value.nodeId == e.nodeId
      && o.value.tombstone == item.tombstone && (!item.tombstone ==> o.value.value == ValueSet(item))
  {
  }

  lemma UnusableOp(item: Item, e: CacheOp)
    ensures CacheOpOf(item, e).None? <==> !Usable(item)
  {
  }

  /** Keys no op names keep their entries. */
  lemma {:induction false} OtherKeysKept(c: Cache, ops: seq<CacheOp>, k: Str)
    requires forall op :: op in ops ==> op.key != k
    ensures var after := RunFrom(c, ops).entries;
      (k in after <==> k in c.entries) && (k in after ==> after[k] == c.entries[k])
  {
    if ops != [] {
      var init, op := ops[..|ops| - 1], ops[|ops| - 1];
      assert ops == init + [op];
      OtherKeysKept(c, init, k);
      assert op in ops;
    }
  }

  /** The keys of the ops are those of the usable items. */
  lemma {:induction false} OpKeys(items: seq<Item>, e: CacheOp)
    ensures forall op :: op in OpsOf(items, e) ==>
              exists i :: 0 <= i < |items| && Usable(items[i]) && items[i].key.value == op.key
  {
    hide CacheOpOf;
    if items != [] {
      var init, item := items[..|items| - 1], items[|items| - 1];
      OpKeys(init, e);
      UnusableOp(item, e);
      forall op | op in OpsOf(items, e)
        ensures exists i :: 0 <= i < |items| && Usable(items[i]) && items[i].key.value == op.key
      {
        if op in OpsOf(init, e) {
          var i :| 0 <= i < |init| && Usable(init[i]) && init[i].key.value == op.key;
          assert items[i] == init[i];
        } else {
          UsableOp(item, e);
          assert items[|items| - 1] == item;
        }
      }
    }
  }

  /** No two usable items share a key. */
  ghost predicate DistinctItems(items: seq<Item>) {
    forall i, j :: 0 <= i < j < |items| && Usable(items[i]) && Usable(items[j]) ==>
                     items[i].key.value != items[j].key.value
  }

  lemma LastItemDone(c: Cache, now: Cache, item: Item, e: CacheOp, b: Batch)
    requires Usable(item)
    requires var k := item.key.value;
      (k in now.entries <==> k in c.entries) && (k in now.entries ==> now.entries[k] == c.entries[k])
    ensures var op := CacheOpOf(item, e).value;
      && KeyDone(c, item, e, Merged(now, op).entries)
      && KeyListed(c, item, e, Reported(b, op, ResultOf(now.entries, op)))
  {
    UsableOp(item, e);
    hide CacheOpOf;
  }

  lemma EarlierItemStays(c: Cache, now: Cache, item: Item, e: CacheOp, b: Batch, op: CacheOp)
    requires Usable(item) && op.key != item.key.value
    requires KeyDone(c, item, e, now.entries) && KeyListed(c, item, e, b)
    ensures KeyDone(c, item, e, Merged(now, op).entries)
    ensures KeyListed(c, item, e, Reported(b, op, ResultOf(now.entries, op)))
  {
    hide ValueSet;
  }

  lemma ItemsPrefix(items: seq<Item>, e: CacheOp)
    requires items != []
    ensures var init, o := OpsOf(items[..|items| - 1], e), CacheOpOf(items[|items| - 1], e);
      OpsOf(items, e) == if o.Some? then init + [o.value] else init
  {
  }

  lemma KeyNotBefore(items: seq<Item>, e: CacheOp)
    requires DistinctItems(items) && items != [] && Usable(items[|items| - 1])
    ensures forall op :: op in OpsOf(items[..|items| - 1], e) ==> op.key != items[|items| - 1].key.value
  {
    hide OpsOf;
    var init := items[..|items| - 1];
    OpKeys(init, e);
    forall op | op in OpsOf(init, e)
      ensures op.key != items[|items| - 1].key.value
    {
      var i :| 0 <= i < |init| && Usable(init[i]) && init[i].key.value == op.key;
      assert items[i] == init[i];
    }
  }

  /** The item's effect after those ops. */
  ghost predicate Settled(c: Cache, item: Item, e: CacheOp, ops: seq<CacheOp>)
    requires Usable(item)
  {
    KeyDone(c, item, e, RunFrom(c, ops).entries) && KeyListed(c, item, e, BatchFrom(c, ops))
  }

  lemma StaysSettled(c: Cache, item: Item, e: CacheOp, ops: seq<CacheOp>, op: CacheOp)
    requires Usable(item) && op.key != item.key.value && Settled(c, item, e, ops)
    ensures Settled(c, item, e, ops + [op])
  {
    hide KeyDone, KeyListed, Merged, Reported, ResultOf, RunFrom, BatchFrom;
    OneMore(c, ops, op);
    EarlierItemStays(c, RunFrom(c, ops), item, e, BatchFrom(c, ops), op);
  }

  lemma Settles(c: Cache, item: Item, e: CacheOp, ops: seq<CacheOp>)
    requires Usable(item) && forall op :: op in ops ==> op.key != item.key.value
    ensures CacheOpOf(item, e).Some? && Settled(c, item, e, ops + [CacheOpOf(item, e).value])
  {
    UsableOp(item, e);
    hide CacheOpOf, KeyDone, KeyListed, Merged, Reported, ResultOf, RunFrom, BatchFrom;
    OneMore(c, ops, CacheOpOf(item, e).value);
    OtherKeysKept(c, ops, item.key.value);
    LastItemDone(c, RunFrom(c, ops), item, e, BatchFrom(c, ops));
  }

  lemma {:induction false} AllSettle(c: Cache, items: seq<Item>, e: CacheOp, i: nat)
    requires DistinctItems(items) && i < |items| && Usable(items[i])
    ensures Settled(c, items[i], e, OpsOf(items, e))
  {
    hide CacheOpOf, Settled, OpsOf;
    var n := |items| - 1;
    var init, item, ops := items[..n], items[n], OpsOf(items[..n], e);
    ItemsPrefix(items, e);
    UnusableOp(item, e);
    if i < n {
      assert init[i] == items[i];
      AllSettle(c, init, e, i);
      if Usable(item) {
        UsableOp(item, e);
        StaysSettled(c, items[i], e, ops, CacheOpOf(item, e).value);
      }
    } else {
      KeyNotBefore(items, e);
      Settles(c, item, e, ops);
    }
  }

  /** An envelope with one item per key does to each what its item says, in the cache and in the outcome lists. */
  lemma EnvelopeEffect(c: Cache, items: seq<Item>, e: CacheOp, i: nat)
    requires DistinctItems(items) && i < |items| && Usable(items[i])
    ensures KeyDone(c, items[i], e, RunFrom(c, OpsOf(items, e)).entries)
    ensures KeyListed(c, items[i], e, BatchFrom(c, OpsOf(items, e)))
  {
    hide KeyDone, KeyListed, OpsOf, RunFrom, BatchFrom;
    AllSettle(c, items, e, i);
  }

  /** Keys the envelope does not name keep their entries. */
  lemma EnvelopeSpares(c: Cache, items: seq<Item>, e: CacheOp, k: Str)
    requires forall i :: 0 <= i < |items| && Usable(items[i]) ==> items[i].key.value != k
    ensures var after := RunFrom(c, OpsOf(items, e)).entries;
      (k in after <==> k in c.entries) && (k in after ==> after[k] == c.entries[k])
  {
    hide RunFrom, OpsOf;
    OpKeys(items, e);
    OtherKeysKept(c, OpsOf(items, e), k);
  }

  lemma VersionFirst(e: CacheOp)
    ensures |Encode(e)| > 0 && Encode(e)[0] == VERSION
  {
    hide BigEndian, Block;
  }

  /** An envelope whose fields fit is opened by its JSON alone: a list, a single object, or nothing. */
  lemma BuiltIsOpened(e: CacheOp, rest: seq<byte>, parse: Str -> Doc)
    requires Truncated(e) == e
    ensures Opened(Encode(e) + rest, parse) ==
            match parse(e.value)
            case Items(items) => Some((e, items))
            case Single(item) => Some((e, [item]))
            case Discarded => None
            case Scalar => None
  {
    hide Decode;
    CacheRoundTrip(e, rest);
    EncodedSize(e);
    VersionFirst(e);
    hide Encode;
  }

  // ---- Resuming ------------------------------------------------------------------------

  /** All ops of an envelope carry its id. */
  lemma {:induction false} OpsCarryId(items: seq<Item>, envelope: CacheOp)
    ensures forall op :: op in OpsOf(items, envelope) ==> op.opId == envelope.opId
  {
    if items != [] {
      OpsCarryId(items[..|items| - 1], envelope);
    }
  }

  /** A log the bouncer could have produced: every envelope decodes, and the ids go up. */
  ghost predicate Increasing(log: seq<seq<byte>>) {
    && (forall i :: 0 <= i < |log| ==> Decode(log[i]).Some?)
    && forall i, j :: 0 <= i < j < |log| ==> Decode(log[i]).value.opId < Decode(log[j]).value.opId
  }

  function Delivered(log: seq<seq<byte>>, parse: Str -> Doc): seq<CacheOp> {
    if log == [] then [] else Delivered(log[..|log| - 1], parse) + OpsIn(log[|log| - 1], parse)
  }

  /** The backfill: every envelope whose id is above `h`. */
  function Above(log: seq<seq<byte>>, h: nat): seq<seq<byte>>
    requires forall i :: 0 <= i < |log| ==> Decode(log[i]).Some?
  {
    if log == [] then []
    else
      var init, last := Above(log[..|log| - 1], h), log[|log| - 1];
      if Decode(last).value.opId > h then init + [last] else init
  }

  /** Cut after `n` envelopes, then continue on the same cache with everything above its highest op id. */
  function Resumed(log: seq<seq<byte>>, n: nat, parse: Str -> Doc): Cache
    requires n <= |log| && forall i :: 0 <= i < |log| ==> Decode(log[i]).Some?
  {
    var c := Final(Delivered(log[..n], parse));
    RunFrom(c, Delivered(Above(log, c.highest), parse))
  }

  lemma OpsInCarryId(data: seq<byte>, parse: Str -> Doc)
    requires Decode(data).Some?
    ensures forall op :: op in OpsIn(data, parse) ==> op.opId == Decode(data).value.opId
  {
    hide OpsOf, Decode;
    var o := Opened(data, parse);
    if o.Some? {
      OpsCarryId(o.value.1, o.value.0);
    }
  }

  lemma FirstIn(ops: seq<CacheOp>)
    requires |ops| > 0
    ensures ops[0] in ops
  {
  }

  lemma NoneLeft(ops: seq<CacheOp>, id: nat, h: nat)
    requires forall op :: op in ops ==> op.opId == id
    requires forall op :: op in ops ==> op.opId <= h
    requires id > h
    ensures ops == []
  {
    if |ops| > 0 {
      FirstIn(ops);
    }
  }

  /** Nothing above `h` in this stretch brought an op. */
  lemma {:induction false} SilentAbove(log: seq<seq<byte>>, h: nat, parse: Str -> Doc)
    requires forall i :: 0 <= i < |log| ==> Decode(log[i]).Some?
    requires forall op :: op in Delivered(log, parse) ==> op.opId <= h
    ensures Delivered(Above(log, h), parse) == []
  {
    hide OpsIn, Decode;
    if log != [] {
      var init, last := log[..|log| - 1], log[|log| - 1];
      SilentAbove(init, h, parse);
      OpsInCarryId(last, parse);
      if Decode(last).value.opId > h {
        NoneLeft(OpsIn(last, parse), Decode(last).value.opId, h);
        var kept := Above(init, h);
        assert (kept + [last])[..|kept|] == kept;
      }
    }
  }

  /** Every envelope after the cut is above `h`, so the backfill from there on is all of them. */
  lemma {:induction false} AllAbove(front: seq<seq<byte>>, tail: seq<seq<byte>>, h: nat)
    requires forall i :: 0 <= i < |front| ==> Decode(front[i]).Some?
    requires forall i :: 0 <= i < |tail| ==> Decode(tail[i]).Some? && Decode(tail[i]).value.opId > h
    ensures forall i :: 0 <= i < |front + tail| ==> Decode((front + tail)[i]).Some?
    ensures Above(front + tail, h) == Above(front, h) + tail
  {
    hide Decode;
    var all := front + tail;
    if tail == [] {
      assert all == front;
    } else {
      var init, last := tail[..|tail| - 1], tail[|tail| - 1];
      assert all[..|all| - 1] == front + init && all[|all| - 1] == last;
      AllAbove(front, init, h);
      assert Above(front, h) + init + [last] == Above(front, h) + tail;
    }
  }

  lemma {:induction false} DeliveredAppend(a: seq<seq<byte>>, b: seq<seq<byte>>, parse: Str -> Doc)
    ensures Delivered(a + b, parse) == Delivered(a, parse) + Delivered(b, parse)
  {
    hide OpsIn;
    if b == [] {
      assert a + b == a;
    } else {
      var all := a + b;
      assert all[..|all| - 1] == a + b[..|b| - 1] && all[|all| - 1] == b[|b| - 1];
      DeliveredAppend(a, b[..|b| - 1], parse);
    }
  }

  /** An op delivered came in some envelope, whose id it carries. */
  lemma {:induction false} DeliveredIn(log: seq<seq<byte>>, parse: Str -> Doc, op: CacheOp) returns (i: nat)
    requires op in Delivered(log, parse)
    ensures i < |log| && op in OpsIn(log[i], parse)
  {
    hide OpsIn;
    var init := log[..|log| - 1];
    if op in Delivered(init, parse) {
      i := DeliveredIn(init, parse, op);
    } else {
      i := |log| - 1;
    }
  }

  /** The highest id seen by the cut is below the id of every envelope after it, unless that id is 0. */
  lemma BelowTheRest(log: seq<seq<byte>>, n: nat, i: nat, parse: Str -> Doc)
    requires Increasing(log) && n <= i < |log| && Decode(log[i]).value.opId > 0
    ensures Final(Delivered(log[..n], parse)).highest < Decode(log[i]).value.opId
  {
    hide OpsIn, Decode, RunFrom, Delivered;
    var ops := Delivered(log[..n], parse);
    HighestSeen(EMPTY, ops);
    var h := Final(ops).highest;
    if h > 0 {
      var op :| op in ops && op.opId == h;
      var j := DeliveredIn(log[..n], parse, op);
      assert log[..n][j] == log[j];
      OpsInCarryId(log[j], parse);
    }
  }

  lemma ResumeAbove(front: seq<seq<byte>>, tail: seq<seq<byte>>, parse: Str -> Doc)
    requires forall i :: 0 <= i < |front| ==> Decode(front[i]).Some?
    requires forall i :: 0 <= i < |tail| ==>
                           Decode(tail[i]).Some? &&
                           Decode(tail[i]).value.opId > Final(Delivered(front, parse)).highest
    ensures forall i :: 0 <= i < |front + tail| ==> Decode((front + tail)[i]).Some?
    ensures Resumed(front + tail, |front|, parse) == Final(Delivered(front + tail, parse))
  {
    hide OpsIn, Decode, RunFrom, Delivered, Above;
    var ops, h := Delivered(front, parse), Final(Delivered(front, parse)).highest;
    assert (front + tail)[..|front|] == front;
    HighestSeen(EMPTY, ops);
    SilentAbove(front, h, parse);
    AllAbove(front, tail, h);
    DeliveredAppend(Above(front, h), tail, parse);
    DeliveredAppend(front, tail, parse);
    var rest := Delivered(tail, parse);
    assert [] + rest == rest;
    RunFromAppend(EMPTY, ops, rest);
  }

  /** Resuming loses nothing and repeats nothing that matters, wherever the log is cut behind id 0. */
  lemma {:induction false} ResumeIsComplete(log: seq<seq<byte>>, n: nat, parse: Str -> Doc)
    requires Increasing(log) && n <= |log| && forall i :: n <= i < |log| ==> Decode(log[i]).value.opId > 0
    ensures Resumed(log, n, parse) == Final(Delivered(log, parse))
  {
    hide OpsIn, Decode, RunFrom, Delivered, Above;
    forall i | n <= i < |log|
      ensures Final(Delivered(log[..n], parse)).highest < Decode(log[i]).value.opId
    {
      BelowTheRest(log, n, i, parse);
    }
    assert log[..n] + log[n..] == log;
    ResumeAbove(log[..n], log[n..], parse);
  }

  /** Nothing with op id 0 sets a key. */
  ghost predicate ZeroIsSilent(log: seq<seq<byte>>, parse: Str -> Doc) {
    forall i, op :: 0 <= i < |log| && op in OpsIn(log[i], parse) && op.opId == 0 ==> op.tombstone
  }

  ghost predicate ResumesAnywhere(log: seq<seq<byte>>, parse: Str -> Doc)
    requires Increasing(log)
  {
    forall m: nat, n: nat :: n <= m <= |log| ==>
                               Resumed(log[..m], n, parse) == Final(Delivered(log[..m], parse))
  }

  lemma {:induction false} NoSetNoChange(ops: seq<CacheOp>)
    requires forall op :: op in ops ==> op.tombstone && op.opId == 0
    ensures Final(ops) == EMPTY
  {
    if ops != [] {
      NoSetNoChange(ops[..|ops| - 1]);
      assert EMPTY.entries - {ops[|ops| - 1].key} == EMPTY.entries;
    }
  }

  lemma SingleDelivered(data: seq<byte>, parse: Str -> Doc)
    ensures Delivered([data], parse) == OpsIn(data, parse)
  {
    hide OpsIn;
    assert [data][..0] == [];
    assert Delivered([], parse) == [];
  }

  lemma NothingDelivered(parse: Str -> Doc)
    ensures Delivered([], parse) == [] && Final([]) == EMPTY
  {
  }

  /** Cut before everything, a silent first envelope with id 0 is not asked for again and is not missed. */
  lemma ResumeFromStart(log: seq<seq<byte>>, parse: Str -> Doc)
    requires Increasing(log) && log != [] && Decode(log[0]).value.opId == 0 && ZeroIsSilent(log, parse)
    ensures Resumed(log, 0, parse) == Final(Delivered(log, parse))
  {
    hide OpsIn, Decode, RunFrom, Delivered;
    var front, tail, ops := log[..1], log[1..], OpsIn(log[0], parse);
    OpsInCarryId(log[0], parse);
    NoSetNoChange(ops);
    assert log[..0] == [] && front == [log[0]] && front[..0] == [] && front + tail == log;
    NothingDelivered(parse);
    SingleDelivered(log[0], parse);
    AllAbove(front, tail, 0);
    assert [] + tail == tail;
    DeliveredAppend(front, tail, parse);
    RunFromAppend(EMPTY, ops, Delivered(tail, parse));
  }

  lemma SetIsKept(ops: seq<CacheOp>, op: CacheOp)
    requires op in ops && !op.tombstone && forall o :: o in ops ==> o.opId == 0
    ensures Final(ops) != EMPTY
  {
    hide RunFrom;
    var i :| 0 <= i < |ops| && ops[i] == op;
    assert forall j :: 0 <= j < |ops| ==> ops[j] in ops;
    assert Survives(ops, op.key, i);
    FinalEntry(ops, op.key);
  }

  lemma FirstSetIsLost(data: seq<byte>, parse: Str -> Doc, op: CacheOp)
    requires Decode(data).Some? && op in OpsIn(data, parse) && op.opId == 0 && !op.tombstone
    ensures Resumed([data], 0, parse) != Final(Delivered([data], parse))
  {
    hide OpsIn, Decode, Final, Delivered;
    OpsInCarryId(data, parse);
    SingleDelivered(data, parse);
    SetIsKept(OpsIn(data, parse), op);
    NothingDelivered(parse);
    assert [data][..0] == [];
    assert Above([data], 0) == [];
    assert RunFrom(EMPTY, []) == EMPTY;
  }

  lemma LaterIdsPositive(log: seq<seq<byte>>, i: nat)
    requires Increasing(log) && 0 < i < |log|
    ensures Decode(log[i]).value.opId > 0
  {
    assert Decode(log[0]).value.opId < Decode(log[i]).value.opId;
  }

  /** The exact condition: an id of 0 means nothing seen, so an envelope with id 0 must not set anything. */
  lemma ResumeExactly(log: seq<seq<byte>>, parse: Str -> Doc)
    requires Increasing(log)
    ensures ResumesAnywhere(log, parse) <==> ZeroIsSilent(log, parse)
  {
    hide OpsIn, Decode, RunFrom, Delivered, Resumed;
    if ZeroIsSilent(log, parse) {
      forall m: nat, n: nat | n <= m <= |log|
        ensures Resumed(log[..m], n, parse) == Final(Delivered(log[..m], parse))
      {
        var part := log[..m];
        if n < m && Decode(part[n]).value.opId == 0 {
          ResumeFromStart(part, parse);
        } else {
          ResumeIsComplete(part, n, parse);
        }
      }
    } else {
      var i, op :| 0 <= i < |log| && op in OpsIn(log[i], parse) && op.opId == 0 && !op.tombstone;
      if i > 0 {
        LaterIdsPositive(log, i);
        OpsInCarryId(log[i], parse);
      }
      FirstSetIsLost(log[0], parse, op);
      assert log[..1] == [log[0]];
    }
  }

  // ---- The resume parameter -----------------------------------------------------------

  const RESUME_KEY: u64 := 0xFF01

  /** encode_resume_op_id: eight bytes, filled from the back. */
  method EncodeResumeOpId(opId: u64) returns (bytes: array<byte>)
    ensures fresh(bytes) && bytes[..] == BigEndian(opId, 8)
  {
    bytes := new byte[8](_ => 0);
    var i, left: nat := 8, opId;
    assert BigEndian(left, 8) + bytes[8..] == BigEndian(opId, 8);
    while i > 0
      invariant i <= 8 && BigEndian(left, i) + bytes[i..] == BigEndian(opId, 8)
    {
      i := i - 1;
      bytes[i] := left % 256;
      assert BigEndian(left, i + 1) == BigEndian(left / 256, i) + [left % 256];
      assert bytes[i..] == [left % 256] + bytes[i + 1..];
      left := left / 256;
    }
    assert BigEndian(left, 0) == [] && bytes[0..] == bytes[..];
  }

  /** The id a peer reads out of the SUBSCRIBE parameter is the one that was asked for. */
  lemma ResumeIdArrives(opId: u64, p: KvpParam)
    requires p == KvpParam(RESUME_KEY, 0, BigEndian(opId, 8))
    ensures p.key == 0xFF01 && Sendable(p) && Carried(p) == p && FromBigEndian(Carried(p).bytesValue) == opId
  {
    hide BigEndian, FromBigEndian;
    Pow256Values();
    BigEndianRoundTrip(opId, 8);
  }
}
