/** The order std::map keeps its string keys in: byte by byte, a proper prefix first. */
module KeyOrder {
  import opened Bytes

  predicate Less(a: Str, b: Str)
    decreases |a|
  {
    b != [] && (a == [] || a[0] < b[0] || (a[0] == b[0] && Less(a[1..], b[1..])))
  }

  lemma {:induction false} LessIrreflexive(a: Str)
    ensures !Less(a, a)
    decreases |a|
  {
    if a != [] {
      LessIrreflexive(a[1..]);
    }
  }

  lemma {:induction false} LessTransitive(a: Str, b: Str, c: Str)
    requires Less(a, b) && Less(b, c)
    ensures Less(a, c)
    decreases |a|
  {
    if a != [] && a[0] == b[0] == c[0] {
      LessTransitive(a[1..], b[1..], c[1..]);
    }
  }

  lemma {:induction false} LessTotal(a: Str, b: Str)
    ensures a == b || Less(a, b) || Less(b, a)
    decreases |a|
  {
    if a != [] && b != [] && a[0] == b[0] {
      LessTotal(a[1..], b[1..]);
      assert a == [a[0]] + a[1..] && b == [b[0]] + b[1..];
    }
  }

  lemma LessAsymmetric(a: Str, b: Str)
    requires Less(a, b)
    ensures !Less(b, a)
  {
    if Less(b, a) {
      LessTransitive(a, b, a);
      LessIrreflexive(a);
    }
  }

  ghost predicate StrictlySorted(keys: seq<Str>) {
    forall i, j :: 0 <= i < j < |keys| ==> Less(keys[i], keys[j])
  }

  // ---- Prefixes --------------------------------------------------------------------

  /** A key that starts with `p` is never before it. */
  lemma {:induction false} PrefixNotLess(p: Str, k: Str)
    requires p <= k
    ensures !Less(k, p)
    decreases |p|
  {
    if p != [] {
      PrefixNotLess(p[1..], k[1..]);
    }
  }

  lemma PrefixTail(p: Str, k: Str)
    requires p != [] && k != [] && p[0] == k[0]
    ensures p <= k <==> p[1..] <= k[1..]
  {
    assert p == [p[0]] + p[1..] && k == [k[0]] + k[1..];
  }

  /** From `p` on, once a key does not start with `p` no later key does: leaving the scan early is sound. */
  lemma {:induction false} PrefixesAreContiguous(p: Str, k: Str, later: Str)
    requires !Less(k, p) && !(p <= k) && Less(k, later)
    ensures !(p <= later)
    decreases |p|
  {
    if p != [] && k != [] && later != [] && p[0] == k[0] == later[0] {
      PrefixTail(p, k);
      PrefixTail(p, later);
      PrefixesAreContiguous(p[1..], k[1..], later[1..]);
    }
  }

  // ---- Positions in a sorted list ------------------------------------------------------

  /** The keys before `k`, all of them, and nothing else: what lower_bound returns. */
  ghost predicate IsLowerBound(keys: seq<Str>, k: Str, at: nat) {
    && at <= |keys|
    && (forall i :: 0 <= i < at ==> Less(keys[i], k))
    && (forall i :: at <= i < |keys| ==> !Less(keys[i], k))
  }

  lemma LessNotLess(a: Str, b: Str, k: Str)
    requires Less(a, b) && !Less(a, k)
    ensures Less(k, b)
  {
    LessTotal(a, k);
    if a != k {
      LessTransitive(k, a, b);
    }
  }

  method LowerBound(keys: seq<Str>, k: Str) returns (at: nat)
    requires StrictlySorted(keys)
    ensures IsLowerBound(keys, k, at)
  {
    at := 0;
    while at < |keys| && Less(keys[at], k)
      invariant at <= |keys|
      invariant forall i :: 0 <= i < at ==> Less(keys[i], k)
    {
      at := at + 1;
    }
    forall i | at < i < |keys|
      ensures !Less(keys[i], k)
    {
      LessNotLess(keys[at], keys[i], k);
      LessAsymmetric(k, keys[i]);
    }
  }

  lemma SortedAt(keys: seq<Str>, i: int, j: int)
    requires StrictlySorted(keys)
    ensures 0 <= i < j < |keys| ==> Less(keys[i], keys[j])
  {
  }

  /** A key of the list sits exactly at its lower bound. */
  lemma FoundAtLowerBound(keys: seq<Str>, k: Str, at: nat)
    requires StrictlySorted(keys) && IsLowerBound(keys, k, at)
    ensures k in keys <==> at < |keys| && keys[at] == k
  {
    LessIrreflexive(k);
    if k in keys {
      var i :| 0 <= i < |keys| && keys[i] == k;
      SortedAt(keys, at, i);
    }
  }

  lemma InsertSorted(keys: seq<Str>, k: Str, at: nat)
    requires StrictlySorted(keys) && IsLowerBound(keys, k, at) && k !in keys
    ensures StrictlySorted(keys[..at] + [k] + keys[at..])
  {
    var all := keys[..at] + [k] + keys[at..];
    forall i, j | 0 <= i < j < |all|
      ensures Less(all[i], all[j])
    {
      if j == at {
      } else if i == at {
        LessTotal(k, keys[j - 1]);
      }
    }
  }

  lemma RemoveSorted(keys: seq<Str>, at: nat)
    requires StrictlySorted(keys) && at < |keys|
    ensures StrictlySorted(keys[..at] + keys[at + 1..])
    ensures forall k :: k in keys[..at] + keys[at + 1..] <==> k in keys && k != keys[at]
  {
    var rest := keys[..at] + keys[at + 1..];
    assert keys == keys[..at] + [keys[at]] + keys[at + 1..];
    LessIrreflexive(keys[at]);
    forall k | k in rest
      ensures k != keys[at]
    {
      var i :| 0 <= i < |rest| && rest[i] == k;
      if i < at {
        assert Less(keys[i], keys[at]);
      } else {
        assert Less(keys[at], keys[i + 1]);
      }
    }
  }

  lemma HeadIsIn(b: seq<Str>)
    requires |b| > 0
    ensures b[0] in b
  {
  }

  lemma SameFirst(a: seq<Str>, b: seq<Str>)
    requires StrictlySorted(a) && StrictlySorted(b) && a != [] && b != []
    requires forall k :: k in a <==> k in b
    ensures a[0] == b[0]
  {
    assert a[0] in b && b[0] in a;
    var i :| 0 <= i < |b| && b[i] == a[0];
    var j :| 0 <= j < |a| && a[j] == b[0];
    if i > 0 && j > 0 {
      LessAsymmetric(b[0], b[i]);
    }
  }

  lemma TailKeys(a: seq<Str>)
    requires StrictlySorted(a) && a != []
    ensures StrictlySorted(a[1..])
    ensures forall k :: k in a[1..] <==> k in a && k != a[0]
  {
    hide StrictlySorted;
    RemoveSorted(a, 0);
    var rest := a[..0] + a[0 + 1..];
    assert rest == a[1..];
    assert forall k :: k in a[1..] <==> k in rest;
  }

  /** Two sorted lists of the same keys are the same list. */
  lemma {:induction false} SortedIsUnique(a: seq<Str>, b: seq<Str>)
    requires StrictlySorted(a) && StrictlySorted(b)
    requires forall k :: k in a <==> k in b
    ensures a == b
    decreases |a|
  {
    if |b| > 0 {
      HeadIsIn(b);
    }
    if a != [] {
      assert a[0] in b;
      SameFirst(a, b);
      TailKeys(a);
      TailKeys(b);
      SortedIsUnique(a[1..], b[1..]);
      assert a == [a[0]] + a[1..] && b == [b[0]] + b[1..];
    }
  }

  /** `a` and `b` agree up to `i`, where `a` ends or has the smaller byte. */
  ghost predicate FirstSmaller(a: Str, b: Str, i: nat) {
    && i <= |a| && i < |b| && a[..i] == b[..i] && (i == |a| || a[i] < b[i])
  }

  lemma SmallerInTail(a: Str, b: Str, i: nat)
    requires a != [] && b != [] && a[0] == b[0] && i > 0
    ensures FirstSmaller(a, b, i) <==> FirstSmaller(a[1..], b[1..], i - 1)
  {
    if i <= |a| && i < |b| {
      assert a[..i] == [a[0]] + a[1..][..i - 1] && b[..i] == [b[0]] + b[1..][..i - 1];
      assert a[1..][..i - 1] == a[..i][1..] && b[1..][..i - 1] == b[..i][1..];
    }
  }

  /** The order is that of std::string: the first byte that differs decides, and a proper prefix comes first. */
  lemma {:induction false} LessIsFirstDifference(a: Str, b: Str)
    ensures Less(a, b) <==> exists i: nat :: FirstSmaller(a, b, i)
    decreases |a|
  {
    if b == [] {
    } else if a == [] || a[0] < b[0] {
      assert FirstSmaller(a, b, 0);
    } else if a[0] == b[0] {
      LessIsFirstDifference(a[1..], b[1..]);
      if Less(a[1..], b[1..]) {
        var j: nat :| FirstSmaller(a[1..], b[1..], j);
        SmallerInTail(a, b, j + 1);
      }
      if i: nat :| FirstSmaller(a, b, i) {
        SmallerInTail(a, b, i);
      }
    } else {
      forall i: nat
        ensures !FirstSmaller(a, b, i)
      {
        if i > 0 && i <= |a| && i < |b| {
          assert a[..i][0] == a[0] && b[..i][0] == b[0];
        }
      }
    }
  }
}
