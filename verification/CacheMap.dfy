/** The per-topic key-value map: op-id-gated merge, sorted visits and the prefix scan. */
module CacheMaps {
  import opened Bytes
  import opened Arith
  import opened CacheWire
  import opened KeyOrder

  datatype Entry = Entry(value: Str, opId: u64, nodeId: u32)

  datatype MergeResult = Accepted | Tombstoned | Rejected

  /** One call of the change handler; a removal passes no entry. */
  datatype Event = Stored(key: Str, entry: Entry) | Removed(key: Str)

  datatype Cache = Cache(entries: map<Str, Entry>, highest: u64)

  const EMPTY := Cache(map[], 0)

  function EntryOf(op: CacheOp): Entry {
    Entry(op.value, op.opId, op.nodeId)
  }

  /** The gate: an entry is there and the op is not newer than it. An erased key has no gate. */
  predicate Gated(entries: map<Str, Entry>, op: CacheOp) {
    op.key in entries && op.opId <= entries[op.key].opId
  }

  function ResultOf(entries: map<Str, Entry>, op: CacheOp): MergeResult {
    if Gated(entries, op) then Rejected else if op.tombstone then Tombstoned else Accepted
  }

  function Applied(entries: map<Str, Entry>, op: CacheOp): map<Str, Entry> {
    if Gated(entries, op) then entries
    else if op.tombstone then entries - {op.key}
    else entries[op.key := EntryOf(op)]
  }

  /** A tombstone for an absent key is silent, though its result is Tombstoned all the same. */
  function EventsOf(entries: map<Str, Entry>, op: CacheOp): seq<Event> {
    if Gated(entries, op) || (op.tombstone && op.key !in entries) then []
    else if op.tombstone then [Removed(op.key)]
    else [Stored(op.key, EntryOf(op))]
  }

  /** The highest op id counts everything seen, stored or not. */
  function Merged(c: Cache, op: CacheOp): Cache {
    Cache(Applied(c.entries, op), Max(c.highest, op.opId))
  }

  function KeysOf(visited: seq<(Str, Entry)>): (ks: seq<Str>)
    ensures |ks| == |visited| && forall i :: 0 <= i < |ks| ==> ks[i] == visited[i].0
  {
    seq(|visited|, i requires 0 <= i < |visited| => visited[i].0)
  }

  class CacheMap {
    /** std::map: its keys in order, and what each maps to. */
    var keys: seq<Str>
    var entries: map<Str, Entry>
    var highestOpId: u64
    /** Whether a change handler is installed, and the calls it has had. */
    var handled: bool
    var events: seq<Event>

    ghost predicate Valid()
      reads this
    {
      StrictlySorted(keys) && forall k :: k in keys <==> k in entries
    }

    ghost function View(): Cache
      reads this
    {
      Cache(entries, highestOpId)
    }

    constructor ()
      ensures Valid() && View() == EMPTY && !handled && events == []
    {
      keys, entries, highestOpId, handled, events := [], map[], 0, false, [];
    }

    /** Overwrites the entry, or inserts the key where it belongs. */
    method Put(key: Str, entry: Entry, at: nat)
      requires Valid() && IsLowerBound(keys, key, at)
      modifies this`keys, this`entries
      ensures Valid() && entries == old(entries)[key := entry]
    {
      FoundAtLowerBound(keys, key, at);
      if !(at < |keys| && keys[at] == key) {
        InsertSorted(keys, key, at);
        assert keys == keys[..at] + keys[at..];
        keys := keys[..at] + [key] + keys[at..];
      }
      entries := entries[key := entry];
    }

    method Merge(op: CacheOp) returns (result: MergeResult)
      requires Valid()
      modifies this`keys, this`entries, this`highestOpId, this`events
      ensures Valid() && View() == Merged(old(View()), op)
      ensures result == ResultOf(old(entries), op)
      ensures events == old(events) + if handled then EventsOf(old(entries), op) else []
    {
      if op.opId > highestOpId {
        highestOpId := op.opId;
      }
      var at := LowerBound(keys, op.key);
      FoundAtLowerBound(keys, op.key, at);
      var found := at < |keys| && keys[at] == op.key;
      if found && op.opId <= entries[op.key].opId {
        return Rejected;
      }
      if op.tombstone {
        if found {
          RemoveSorted(keys, at);
          keys, entries := keys[..at] + keys[at + 1..], entries - {op.key};
          if handled {
            events := events + [Removed(op.key)];
          }
        }
        assert !found ==> entries - {op.key} == entries;
        return Tombstoned;
      }
      Put(op.key, EntryOf(op), at);
      if handled {
        events := events + [Stored(op.key, EntryOf(op))];
      }
      result := Accepted;
    }

    method Get(key: Str) returns (r: Option<Entry>)
      requires Valid()
      ensures r == if key in entries then Some(entries[key]) else None
    {
      var at := LowerBound(keys, key);
      FoundAtLowerBound(keys, key, at);
      if at == |keys| || keys[at] != key {
        return None;
      }
      r := Some(entries[key]);
    }

    method HighestOpId() returns (id: u64)
      ensures id == View().highest
    {
      id := highestOpId;
    }

    /** Drops everything, without telling the handler. */
    method Clear()
      modifies this`keys, this`entries, this`highestOpId
      ensures Valid() && View() == EMPTY
    {
      keys, entries, highestOpId := [], map[], 0;
    }

    method SetChangeHandler(present: bool)
      modifies this`handled, this`events
      ensures handled == present && events == []
    {
      handled, events := present, [];
    }

    ghost predicate IsSlice(visited: seq<(Str, Entry)>, start: nat, at: nat)
      requires Valid() && start <= at <= |keys|
      reads this
    {
      |visited| == at - start &&
      forall i :: 0 <= i < |visited| ==> visited[i] == (keys[start + i], entries[keys[start + i]])
    }

    lemma FrontUnmatched(prefix: Str, start: nat)
      requires Valid() && (if prefix == [] then start == 0 else IsLowerBound(keys, prefix, start))
      ensures forall i :: 0 <= i < start ==> !(prefix <= keys[i])
    {
      forall i | 0 <= i < start
        ensures !(prefix <= keys[i])
      {
        if prefix <= keys[i] {
          PrefixNotLess(prefix, keys[i]);
        }
      }
    }

    lemma RestUnmatched(prefix: Str, start: nat, at: nat)
      requires Valid() && start <= at < |keys| && prefix != [] && IsLowerBound(keys, prefix, start)
      requires !(prefix <= keys[at])
      ensures forall i :: at <= i < |keys| ==> !(prefix <= keys[i])
    {
      forall i | at < i < |keys|
        ensures !(prefix <= keys[i])
      {
        PrefixesAreContiguous(prefix, keys[at], keys[i]);
      }
    }

    lemma SliceVisits(visited: seq<(Str, Entry)>, prefix: Str, start: nat, at: nat)
      requires Valid() && start <= at <= |keys| && IsSlice(visited, start, at)
      requires forall i :: 0 <= i < |keys| ==> (start <= i < at <==> prefix <= keys[i])
      ensures StrictlySorted(KeysOf(visited))
      ensures forall k, e :: (k, e) in visited <==> k in entries && entries[k] == e && prefix <= k
    {
      forall k, e | k in entries && entries[k] == e && prefix <= k
        ensures (k, e) in visited
      {
        var i :| 0 <= i < |keys| && keys[i] == k;
        assert visited[i - start] == (k, e);
      }
    }

    /** The calls a visitor gets: every entry whose key starts with `prefix`, once each, in key order. */
    method ForEachPrefix(prefix: Str) returns (visited: seq<(Str, Entry)>)
      requires Valid()
      ensures StrictlySorted(KeysOf(visited))
      ensures forall k, e :: (k, e) in visited <==> k in entries && entries[k] == e && prefix <= k
    {
      visited := [];
      var at := 0;
      if prefix != [] {
        at := LowerBound(keys, prefix);
      }
      ghost var start := at;
      while at < |keys|
        invariant start <= at <= |keys|
        invariant IsSlice(visited, start, at)
        invariant forall i :: start <= i < at ==> prefix <= keys[i]
      {
        var k := keys[at];
        if |k| < |prefix| || k[..|prefix|] != prefix {
          RestUnmatched(prefix, start, at);
          break;
        }
        visited := visited + [(k, entries[k])];
        at := at + 1;
      }
      FrontUnmatched(prefix, start);
      SliceVisits(visited, prefix, start, at);
    }

    /** With no prefix every entry is visited. */
    method ForEach() returns (visited: seq<(Str, Entry)>)
      requires Valid()
      ensures StrictlySorted(KeysOf(visited))
      ensures forall k, e :: (k, e) in visited <==> k in entries && entries[k] == e
    {
      visited := ForEachPrefix([]);
    }
  }

  lemma ScannedKeys(entries: map<Str, Entry>, prefix: Str, a: seq<(Str, Entry)>)
    requires forall k, e :: (k, e) in a <==> k in entries && entries[k] == e && prefix <= k
    ensures forall k :: k in KeysOf(a) <==> k in entries && prefix <= k
  {
    forall k | k in entries && prefix <= k
      ensures k in KeysOf(a)
    {
      assert (k, entries[k]) in a;
      var i :| 0 <= i < |a| && a[i] == (k, entries[k]);
      assert KeysOf(a)[i] == k;
    }
    forall k | k in KeysOf(a)
      ensures k in entries && prefix <= k
    {
      var i :| 0 <= i < |a| && KeysOf(a)[i] == k;
      assert (a[i].0, a[i].1) in a;
    }
  }

  /** Those two facts leave a scan no freedom: it is what filtering the whole map by the prefix would list. */
  lemma ScanIsDetermined(entries: map<Str, Entry>, prefix: Str, a: seq<(Str, Entry)>, b: seq<(Str, Entry)>)
    requires StrictlySorted(KeysOf(a)) && StrictlySorted(KeysOf(b))
    requires forall k, e :: (k, e) in a <==> k in entries && entries[k] == e && prefix <= k
    requires forall k, e :: (k, e) in b <==> k in entries && entries[k] == e && prefix <= k
    ensures a == b
  {
    ScannedKeys(entries, prefix, a);
    ScannedKeys(entries, prefix, b);
    SortedIsUnique(KeysOf(a), KeysOf(b));
    forall i | 0 <= i < |a|
      ensures a[i] == b[i]
    {
      assert KeysOf(a)[i] == KeysOf(b)[i];
      assert (a[i].0, a[i].1) in a && (b[i].0, b[i].1) in b;
    }
  }

  /** A merge touches no key but its own. */
  lemma OthersUntouched(entries: map<Str, Entry>, op: CacheOp, k: Str)
    requires k != op.key
    ensures k in Applied(entries, op) <==> k in entries
    ensures k in entries ==> Applied(entries, op)[k] == entries[k]
  {
  }

  /** The result tells what happened: the newer or equal entry stayed, the key is gone, or it holds the op. */
  lemma ResultTells(entries: map<Str, Entry>, op: CacheOp)
    ensures var after, newer := Applied(entries, op), op.key in entries && entries[op.key].opId >= op.opId;
      match ResultOf(entries, op)
      case Rejected => newer && after == entries
      case Tombstoned => !newer && op.tombstone && op.key !in after
      case Accepted =>
        !newer && !op.tombstone && op.key in after && after[op.key] == Entry(op.value, op.opId, op.nodeId)
  {
  }

  /** The handler is called once when the map changes and not at all when it does not. */
  lemma EventTells(entries: map<Str, Entry>, op: CacheOp)
    ensures |EventsOf(entries, op)| == if Applied(entries, op) != entries then 1 else 0
  {
    if op.tombstone && op.key !in entries {
      assert entries - {op.key} == entries;
    } else if !Gated(entries, op) {
      assert op.tombstone ==> op.key !in Applied(entries, op) && op.key in entries;
      assert !op.tombstone && op.key in entries ==> Applied(entries, op)[op.key].opId > entries[op.key].opId;
      assert !op.tombstone && op.key !in entries ==> op.key in Applied(entries, op);
    }
  }
}
