/** What a whole delivery log leaves in the cache, in whatever order it arrived. */
module MergeRuns {
  import opened Bytes
  import opened CacheWire
  import opened CacheMaps

  function RunFrom(c: Cache, log: seq<CacheOp>): Cache {
    if log == [] then c else Merged(RunFrom(c, log[..|log| - 1]), log[|log| - 1])
  }

  function Final(log: seq<CacheOp>): Cache {
    RunFrom(EMPTY, log)
  }

  lemma {:induction false} RunFromAppend(c: Cache, a: seq<CacheOp>, b: seq<CacheOp>)
    ensures RunFrom(c, a + b) == RunFrom(RunFrom(c, a), b)
  {
    if b == [] {
      assert a + b == a;
    } else {
      var all := a + b;
      assert all[..|all| - 1] == a + b[..|b| - 1] && all[|all| - 1] == b[|b| - 1];
      RunFromAppend(c, a, b[..|b| - 1]);
    }
  }

  // ---- An observer of the change handler -------------------------------------------------

  /** Every handler call of a run. */
  function EventsFrom(c: Cache, log: seq<CacheOp>): seq<Event> {
    if log == [] then []
    else
      var init := log[..|log| - 1];
      EventsFrom(c, init) + EventsOf(RunFrom(c, init).entries, log[|log| - 1])
  }

  function Mirrored(mirror: map<Str, Entry>, event: Event): map<Str, Entry> {
    match event
    case Stored(key, entry) => mirror[key := entry]
    case Removed(key) => mirror - {key}
  }

  function Replay(mirror: map<Str, Entry>, events: seq<Event>): map<Str, Entry> {
    if events == [] then mirror else Mirrored(Replay(mirror, events[..|events| - 1]), events[|events| - 1])
  }

  /** Starting level with the cache and applying every handler call keeps the mirror level, over every run. */
  lemma {:induction false} MirrorFollows(c: Cache, log: seq<CacheOp>)
    ensures Replay(c.entries, EventsFrom(c, log)) == RunFrom(c, log).entries
  {
    if log != [] {
      var init, op := log[..|log| - 1], log[|log| - 1];
      MirrorFollows(c, init);
      var before := RunFrom(c, init).entries;
      var events, more := EventsFrom(c, init), EventsOf(before, op);
      if more == [] {
        assert events + more == events;
        assert op.key !in before ==> before - {op.key} == before;
      } else {
        var all := events + more;
        assert all[..|all| - 1] == events && all[|all| - 1] == more[0];
      }
    }
  }

  // ---- The highest op id -------------------------------------------------------------

  /** It is the maximum over the start and everything delivered, rejected ops included. */
  lemma {:induction false} HighestSeen(c: Cache, log: seq<CacheOp>)
    ensures var h := RunFrom(c, log).highest;
      && h >= c.highest && (forall op :: op in log ==> op.opId <= h)
      && (h == c.highest || exists op :: op in log && op.opId == h)
  {
    if log != [] {
      var init, op := log[..|log| - 1], log[|log| - 1];
      HighestSeen(c, init);
      assert log == init + [op];
    }
  }

  // ---- The surviving entry -------------------------------------------------------------

  /** The set at `i` outlives every tombstone for its key that was delivered after it. */
  ghost predicate Survives(log: seq<CacheOp>, k: Str, i: int) {
    && 0 <= i < |log| && log[i].key == k && !log[i].tombstone
    && forall j :: i < j < |log| && log[j].key == k && log[j].tombstone ==> log[j].opId <= log[i].opId
  }

  /** The newest survivor; the first delivered among equals. */
  ghost predicate Wins(log: seq<CacheOp>, k: Str, m: int) {
    && Survives(log, k, m)
    && forall i :: Survives(log, k, i) ==>
                     log[i].opId < log[m].opId || (log[i].opId == log[m].opId && m <= i)
  }

  lemma SurvivesStep(init: seq<CacheOp>, op: CacheOp, k: Str, i: nat)
    requires i <= |init|
    ensures Survives(init + [op], k, i) <==>
            if i == |init| then op.key == k && !op.tombstone
            else Survives(init, k, i) && (op.key == k && op.tombstone ==> op.opId <= init[i].opId)
  {
    var log := init + [op];
    if i < |init| && Survives(log, k, i) {
      assert log[|init|] == op;
      forall j | i < j < |init| && init[j].key == k && init[j].tombstone
        ensures init[j].opId <= init[i].opId
      {
        assert log[j] == init[j];
      }
    }
  }

  /** What is known of key `k` after the log: nothing survives, or the winner's entry is held. */
  ghost predicate Settled(log: seq<CacheOp>, k: Str, entries: map<Str, Entry>) {
    if k in entries then exists m :: Wins(log, k, m) && entries[k] == EntryOf(log[m])
    else forall i :: !Survives(log, k, i)
  }

  lemma OtherKeyKeeps(init: seq<CacheOp>, op: CacheOp, k: Str, entries: map<Str, Entry>)
    requires Settled(init, k, entries) && op.key != k
    ensures Settled(init + [op], k, Applied(entries, op))
  {
    var log := init + [op];
    forall i | 0 <= i < |log|
      ensures Survives(log, k, i) <==> i < |init| && Survives(init, k, i)
    {
      SurvivesStep(init, op, k, i);
    }
    if k in entries {
      var m :| Wins(init, k, m) && entries[k] == EntryOf(init[m]);
      assert Wins(log, k, m) && log[m] == init[m];
    }
  }

  lemma AbsentKeySettles(init: seq<CacheOp>, op: CacheOp, entries: map<Str, Entry>)
    requires Settled(init, op.key, entries) && op.key !in entries
    ensures Settled(init + [op], op.key, Applied(entries, op))
  {
    var log, k := init + [op], op.key;
    forall i | 0 <= i < |log|
      ensures Survives(log, k, i) <==> i == |init| && !op.tombstone
    {
      SurvivesStep(init, op, k, i);
    }
    if !op.tombstone {
      assert Wins(log, k, |init|) && log[|init|] == op;
    }
  }

  lemma PresentKeySettles(init: seq<CacheOp>, op: CacheOp, entries: map<Str, Entry>)
    requires Settled(init, op.key, entries) && op.key in entries
    ensures Settled(init + [op], op.key, Applied(entries, op))
  {
    var log, k, n := init + [op], op.key, |init|;
    var m :| Wins(init, k, m) && entries[k] == EntryOf(init[m]);
    forall i | 0 <= i < |log|
      ensures Survives(log, k, i) <==>
              if i == n then !op.tombstone
              else Survives(init, k, i) && (op.tombstone ==> op.opId <= init[i].opId)
    {
      SurvivesStep(init, op, k, i);
    }
    if Gated(entries, op) {
      assert log[m] == init[m];
      assert Wins(log, k, m);
    } else if !op.tombstone {
      assert Wins(log, k, n) && log[n] == op;
    }
  }

  lemma {:induction false} RunSettles(log: seq<CacheOp>, k: Str)
    ensures Settled(log, k, Final(log).entries)
  {
    if log != [] {
      var init, op := log[..|log| - 1], log[|log| - 1];
      RunSettles(init, k);
      var entries := Final(init).entries;
      assert log == init + [op];
      if op.key != k {
        OtherKeyKeeps(init, op, k, entries);
      } else if k in entries {
        PresentKeySettles(init, op, entries);
      } else {
        AbsentKeySettles(init, op, entries);
      }
    }
  }

  /** The exact outcome of any log: a key is held exactly when a set on it survives, and holds the winner. */
  lemma FinalEntry(log: seq<CacheOp>, k: Str)
    ensures k in Final(log).entries <==> exists i :: Survives(log, k, i)
    ensures forall m :: Wins(log, k, m) ==> k in Final(log).entries && Final(log).entries[k] == EntryOf(log[m])
  {
    hide Final;
    RunSettles(log, k);
    forall m | Wins(log, k, m)
      ensures k in Final(log).entries && Final(log).entries[k] == EntryOf(log[m])
    {
      assert Survives(log, k, m);
    }
  }

  // ---- The documented rule: the highest op id per key wins ------------------------------------

  /** `op` is the newest on its key; it may have been delivered more than once. */
  ghost predicate Newest(log: seq<CacheOp>, op: CacheOp) {
    op in log && forall o :: o in log && o.key == op.key ==> o.opId < op.opId || o == op
  }

  /** A newest set is what the key holds, wherever in the log it was delivered. */
  lemma NewestSetWins(log: seq<CacheOp>, op: CacheOp)
    requires Newest(log, op) && !op.tombstone
    ensures op.key in Final(log).entries && Final(log).entries[op.key] == EntryOf(op)
  {
    hide Final;
    var i :| 0 <= i < |log| && log[i] == op;
    assert Survives(log, op.key, i);
    RunSettles(log, op.key);
    var m :| Wins(log, op.key, m) && Final(log).entries[op.key] == EntryOf(log[m]);
    assert log[m] in log;
  }

  /** A newest tombstone leaves the key absent exactly when every set is followed by a newer tombstone. */
  lemma NewestTombstone(log: seq<CacheOp>, op: CacheOp)
    requires Newest(log, op) && op.tombstone
    ensures op.key !in Final(log).entries <==>
            forall i :: 0 <= i < |log| && log[i].key == op.key && !log[i].tombstone ==>
              exists j :: i < j < |log| && log[j].key == op.key && log[j].tombstone && log[j].opId > log[i].opId
  {
    hide Final;
    FinalEntry(log, op.key);
    if op.key in Final(log).entries {
      var i :| Survives(log, op.key, i);
    } else {
      forall i | 0 <= i < |log| && log[i].key == op.key && !log[i].tombstone
        ensures exists j :: i < j < |log| && log[j].key == op.key && log[j].tombstone && log[j].opId > log[i].opId
      {
        assert !Survives(log, op.key, i);
      }
    }
  }

  /** In particular no set on the key may be delivered after it. */
  lemma NewestTombstoneErases(log: seq<CacheOp>, j: nat)
    requires j < |log| && Newest(log, log[j]) && log[j].tombstone
    requires forall i :: j < i < |log| && log[i].key == log[j].key ==> log[i].tombstone
    ensures log[j].key !in Final(log).entries
  {
    hide Final;
    FinalEntry(log, log[j].key);
    forall i | 0 <= i < |log|
      ensures !Survives(log, log[j].key, i)
    {
      assert log[i] in log;
    }
  }

  /** Ids on one key are not shared by different ops. */
  ghost predicate DistinctIds(log: seq<CacheOp>) {
    forall a, b :: a in log && b in log && a.key == b.key && a.opId == b.opId ==> a == b
  }

  /** The cache holds, for every key, what its newest op says. */
  ghost predicate NewestRules(log: seq<CacheOp>) {
    forall op :: Newest(log, op) ==>
                   if op.tombstone then op.key !in Final(log).entries
                   else op.key in Final(log).entries && Final(log).entries[op.key] == EntryOf(op)
  }

  /** No set survives on a key whose newest op is a tombstone. */
  ghost predicate Orderly(log: seq<CacheOp>) {
    forall op, i :: Newest(log, op) && op.tombstone ==> !Survives(log, op.key, i)
  }

  /** The documented rule holds of exactly the orderly logs. */
  lemma NewestRulesExactly(log: seq<CacheOp>)
    ensures NewestRules(log) <==> Orderly(log)
  {
    hide Final;
    forall op | Newest(log, op)
      ensures op.tombstone ==> (op.key !in Final(log).entries <==> forall i :: !Survives(log, op.key, i))
      ensures !op.tombstone ==> op.key in Final(log).entries && Final(log).entries[op.key] == EntryOf(op)
    {
      if op.tombstone {
        FinalEntry(log, op.key);
      } else {
        NewestSetWins(log, op);
      }
    }
  }

  /** A tombstone leaves no marker: an older set arriving late brings the key back. */
  lemma LateSetReturns(set5: CacheOp, erase10: CacheOp)
    requires set5.key == erase10.key && !set5.tombstone && erase10.tombstone
    requires set5.opId == 5 && erase10.opId == 10
    ensures set5.key in Final([erase10, set5]).entries && set5.key !in Final([set5, erase10]).entries
  {
    hide Final;
    var log, other := [erase10, set5], [set5, erase10];
    FinalEntry(log, set5.key);
    FinalEntry(other, set5.key);
    assert Survives(log, set5.key, 1);
    assert other[1] == erase10;
  }

  // ---- Convergence ----------------------------------------------------------------

  ghost predicate SameOps(a: seq<CacheOp>, b: seq<CacheOp>) {
    forall op :: op in a <==> op in b
  }

  lemma {:induction false} NewestExists(log: seq<CacheOp>, k: Str) returns (op: CacheOp)
    requires DistinctIds(log) && exists o :: o in log && o.key == k
    ensures Newest(log, op) && op.key == k
  {
    var init, last := log[..|log| - 1], log[|log| - 1];
    assert log == init + [last];
    if exists o :: o in init && o.key == k {
      op := NewestExists(init, k);
      if last.key == k && last.opId > op.opId {
        op := last;
      }
      assert op in log;
    } else {
      op := last;
    }
  }

  lemma SameEntries(a: seq<CacheOp>, b: seq<CacheOp>, k: Str)
    requires SameOps(a, b) && DistinctIds(a) && Orderly(a) && Orderly(b)
    ensures k in Final(a).entries ==> k in Final(b).entries && Final(a).entries[k] == Final(b).entries[k]
  {
    hide Final;
    if k in Final(a).entries {
      FinalEntry(a, k);
      var i :| Survives(a, k, i);
      assert a[i] in a;
      var op := NewestExists(a, k);
      assert Newest(b, op);
      NewestSetWins(a, op);
      NewestSetWins(b, op);
    }
  }

  lemma SameHighest(a: seq<CacheOp>, b: seq<CacheOp>)
    requires SameOps(a, b)
    ensures Final(a).highest == Final(b).highest
  {
    HighestSeen(EMPTY, a);
    HighestSeen(EMPTY, b);
  }

  /** The same ops delivered in any two orderly ways, repeats included, leave the same cache. */
  lemma OrderlyLogsConverge(a: seq<CacheOp>, b: seq<CacheOp>)
    requires SameOps(a, b) && DistinctIds(a) && Orderly(a) && Orderly(b)
    ensures Final(a) == Final(b)
  {
    hide Final;
    SameHighest(a, b);
    forall k
      ensures k in Final(a).entries <==> k in Final(b).entries
      ensures k in Final(a).entries ==> Final(a).entries[k] == Final(b).entries[k]
    {
      SameEntries(a, b, k);
      SameEntries(b, a, k);
    }
    assert Final(a).entries == Final(b).entries;
  }

  /** Without tombstones the order of delivery never matters. */
  lemma TombstoneFreeConverges(a: seq<CacheOp>, b: seq<CacheOp>)
    requires SameOps(a, b) && DistinctIds(a) && forall op :: op in a ==> !op.tombstone
    ensures Final(a) == Final(b)
  {
    OrderlyLogsConverge(a, b);
  }

  /** The set at `i` outlives every tombstone for its key, wherever it was delivered. */
  ghost predicate Outlasts(log: seq<CacheOp>, k: Str, i: int) {
    && 0 <= i < |log| && log[i].key == k && !log[i].tombstone
    && forall j :: 0 <= j < |log| && log[j].key == k && log[j].tombstone ==> log[j].opId <= log[i].opId
  }

  /** In a doubled log the second copies fare as before; a first copy must outlast everything. */
  lemma SecondCopySurvives(log: seq<CacheOp>, k: Str, i: nat)
    requires |log| <= i < |log + log|
    ensures Survives(log + log, k, i) <==> Survives(log, k, i - |log|)
  {
    var two, n := log + log, |log|;
    assert two[i] == log[i - n];
    if Survives(two, k, i) {
      forall j | i - n < j < n
        ensures log[j] == two[n + j]
      {
      }
    }
  }

  lemma FirstCopySurvives(log: seq<CacheOp>, k: Str, i: nat)
    requires i < |log|
    ensures Survives(log + log, k, i) <==> Outlasts(log, k, i)
  {
    var two, n := log + log, |log|;
    assert two[i] == log[i];
    if Outlasts(log, k, i) {
      forall j | i < j < |two| && two[j].key == k && two[j].tombstone
        ensures two[j].opId <= two[i].opId
      {
        assert two[j] == if j < n then log[j] else log[j - n];
      }
    }
    if Survives(two, k, i) {
      forall j | 0 <= j < n && log[j].key == k && log[j].tombstone
        ensures log[j].opId <= log[i].opId
      {
        assert two[n + j] == log[j];
      }
    }
  }

  lemma InRange(log: seq<CacheOp>, k: Str, i: int)
    requires Survives(log, k, i)
    ensures 0 <= i < |log|
  {
  }

  /** One that outlasts every tombstone survives, and lends that to any set at least as new. */
  lemma OutlastsAll(log: seq<CacheOp>, k: Str, i: int, m: int)
    requires Outlasts(log, k, i) && Survives(log, k, m)
    ensures Survives(log, k, i)
    ensures log[i].opId <= log[m].opId ==> Outlasts(log, k, m)
  {
  }

  /** The winner is the same op: its first copy, or its second if a tombstone falls between. */
  lemma DoubledWinner(log: seq<CacheOp>, k: Str, m: nat) returns (w: nat)
    requires Wins(log, k, m)
    ensures Wins(log + log, k, w) && (log + log)[w] == log[m]
  {
    hide Survives, Outlasts;
    var two, n := log + log, |log|;
    InRange(log, k, m);
    FirstCopySurvives(log, k, m);
    SecondCopySurvives(log, k, n + m);
    w := if Survives(two, k, m) then m else n + m;
    assert two[m] == log[m] == two[n + m];
    forall i | Survives(two, k, i)
      ensures 0 <= i < |two|
    {
      InRange(two, k, i);
    }
    forall i | Survives(two, k, i)
      ensures two[i].opId < two[w].opId || (two[i].opId == two[w].opId && w <= i)
    {
      if i < n {
        FirstCopySurvives(log, k, i);
        assert two[i] == log[i];
        OutlastsAll(log, k, i, m);
      } else {
        SecondCopySurvives(log, k, i);
        assert two[i] == log[i - n];
      }
    }
  }

  lemma NothingSurvivesTwice(log: seq<CacheOp>, k: Str)
    requires forall i :: !Survives(log, k, i)
    ensures forall i :: !Survives(log + log, k, i)
  {
    forall i | 0 <= i < |log + log|
      ensures !Survives(log + log, k, i)
    {
      if i < |log| {
        FirstCopySurvives(log, k, i);
        assert !Survives(log, k, i);
      } else {
        SecondCopySurvives(log, k, i);
      }
    }
  }

  lemma ReplayKeepsKey(log: seq<CacheOp>, k: Str)
    ensures k in Final(log).entries <==> k in Final(log + log).entries
    ensures k in Final(log).entries ==> Final(log).entries[k] == Final(log + log).entries[k]
  {
    hide Final, Outlasts;
    RunSettles(log, k);
    FinalEntry(log + log, k);
    if k in Final(log).entries {
      var m :| Wins(log, k, m) && Final(log).entries[k] == EntryOf(log[m]);
      var w := DoubledWinner(log, k, m);
    } else {
      NothingSurvivesTwice(log, k);
    }
  }

  /** Delivering a whole log again changes nothing, whatever it contains. */
  lemma ReplayIsIdempotent(log: seq<CacheOp>)
    ensures Final(log + log) == Final(log)
  {
    hide Final;
    SameHighest(log, log + log);
    forall k
      ensures k in Final(log).entries <==> k in Final(log + log).entries
      ensures k in Final(log).entries ==> Final(log).entries[k] == Final(log + log).entries[k]
    {
      ReplayKeepsKey(log, k);
    }
    assert Final(log).entries == Final(log + log).entries;
  }
}
