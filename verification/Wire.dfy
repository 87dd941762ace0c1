/** Length-prefixed strings, namespace tuples and delta-encoded parameter lists. */
module Wire {
  import opened Bytes
  import opened Varint

  const TWO64: nat := 0x1_0000_0000_0000_0000

  /** Lengths above this do not fit the source's int32 offsets, messages themselves being at most 65535 bytes. */
  const MAX_LEN: nat := 0x7FFF_0000

  /** A container size as the 64-bit number that is sent. */
  function Size(n: nat): u64 {
    n % TWO64
  }

  // ---- Strings ----------------------------------------------------------------

  function EncodeString(s: Str): seq<byte> {
    EncodeVarint(Size(|s|)) + s
  }

  function ReadString(s: seq<byte>): Parse<Str> {
    var (len, t) :- ReadVarint(s);
    if len > MAX_LEN then Overlong
    else if len > |t| then Bad
    else Ok(t[..len], t[len..])
  }

  lemma StringRoundTrip(s: Str, rest: seq<byte>)
    requires |s| <= MAX_LEN
    ensures ReadString(EncodeString(s) + rest) == Ok(s, rest)
  {
    hide EncodeVarint, ReadVarint;
    var tail := s + rest;
    VarintDecodes(|s|, tail);
    assert EncodeString(s) + rest == EncodeVarint(|s|) + tail;
    assert tail[..|s|] == s && tail[|s|..] == rest;
  }

  // ---- Namespaces -------------------------------------------------------------

  function EncodeStrings(parts: seq<Str>): seq<byte> {
    if parts == [] then [] else EncodeString(parts[0]) + EncodeStrings(parts[1..])
  }

  function Namespace(parts: seq<Str>): seq<byte> {
    EncodeVarint(Size(|parts|)) + EncodeStrings(parts)
  }

  /** `n` more strings behind the ones in `acc`. */
  function ReadStrings(n: nat, s: seq<byte>, acc: seq<Str>): Parse<seq<Str>> {
    if n == 0 then Ok(acc, s)
    else
      var (part, t) :- ReadString(s);
      ReadStrings(n - 1, t, acc + [part])
  }

  function ReadNamespace(s: seq<byte>): Parse<seq<Str>> {
    var (count, t) :- ReadVarint(s);
    ReadStrings(count, t, [])
  }

  method EncodeNamespace(parts: seq<Str>) returns (result: seq<byte>)
    ensures result == Namespace(parts)
  {
    result := EncodeVarint(Size(|parts|));
    for i := 0 to |parts|
      invariant result + EncodeStrings(parts[i..]) == Namespace(parts)
    {
      result := result + EncodeString(parts[i]);
      assert parts[i..][1..] == parts[i + 1..];
    }
  }

  method DecodeNamespace(buffer: seq<byte>) returns (r: Parse<seq<Str>>)
    ensures r == ReadNamespace(buffer)
  {
    var head :- ReadVarint(buffer);
    var (count, unread) := head;
    var parts: seq<Str> := [];
    var i := 0;
    while i < count
      invariant i <= count
      invariant ReadStrings(count - i, unread, parts) == ReadNamespace(buffer)
    {
      var part :- ReadString(unread);
      parts, unread, i := parts + [part.0], part.1, i + 1;
    }
    r := Ok(parts, unread);
  }

  lemma {:induction false} StringsRoundTrip(parts: seq<Str>, rest: seq<byte>, acc: seq<Str>)
    requires forall p :: p in parts ==> |p| <= MAX_LEN
    ensures ReadStrings(|parts|, EncodeStrings(parts) + rest, acc) == Ok(acc + parts, rest)
  {
    hide EncodeString, ReadString;
    if parts == [] {
      assert acc + parts == acc && EncodeStrings(parts) + rest == rest;
    } else {
      var head, tail := parts[0], EncodeStrings(parts[1..]) + rest;
      StringRoundTrip(head, tail);
      assert EncodeStrings(parts) + rest == EncodeString(head) + tail;
      StringsRoundTrip(parts[1..], rest, acc + [head]);
      assert acc + [head] + parts[1..] == acc + parts;
    }
  }

  lemma NamespaceRoundTrip(parts: seq<Str>, rest: seq<byte>)
    requires |parts| < TWO62 && forall p :: p in parts ==> |p| <= MAX_LEN
    ensures ReadNamespace(Namespace(parts) + rest) == Ok(parts, rest)
  {
    hide EncodeVarint, ReadVarint;
    var tail := EncodeStrings(parts) + rest;
    VarintDecodes(|parts|, tail);
    var s := Namespace(parts) + rest;
    assert s == EncodeVarint(|parts|) + tail;
    assert ReadVarint(s) == Ok(|parts|, tail);
    StringsRoundTrip(parts, rest, []);
    assert [] + parts == parts;
  }

  // ---- Parameters ---------------------------------------------------------------

  /** Odd keys carry `bytesValue`, even keys `intValue`. */
  datatype KvpParam = KvpParam(key: u64, intValue: u64, bytesValue: seq<byte>)

  predicate SortedByKey(ps: seq<KvpParam>) {
    forall i, j :: 0 <= i < j < |ps| ==> ps[i].key <= ps[j].key
  }

  /** What std::sort promises: some key-sorted permutation. Equal keys may come out in any order. */
  predicate IsKeySort(ps: seq<KvpParam>, sorted: seq<KvpParam>) {
    SortedByKey(sorted) && multiset(sorted) == multiset(ps)
  }

  function Insert(p: KvpParam, sorted: seq<KvpParam>): seq<KvpParam> {
    if sorted == [] || p.key <= sorted[0].key then [p] + sorted else [sorted[0]] + Insert(p, sorted[1..])
  }

  function SomeKeySort(ps: seq<KvpParam>): seq<KvpParam> {
    if ps == [] then [] else Insert(ps[0], SomeKeySort(ps[1..]))
  }

  lemma {:induction false} InsertKeepsAll(p: KvpParam, sorted: seq<KvpParam>)
    ensures multiset(Insert(p, sorted)) == multiset{p} + multiset(sorted)
  {
    if !(sorted == [] || p.key <= sorted[0].key) {
      InsertKeepsAll(p, sorted[1..]);
      assert sorted == [sorted[0]] + sorted[1..];
    }
  }

  lemma ConsSorted(p: KvpParam, tail: seq<KvpParam>)
    requires SortedByKey(tail) && forall q :: q in tail ==> p.key <= q.key
    ensures SortedByKey([p] + tail)
  {
  }

  lemma NoneSorted()
    ensures SortedByKey([])
  {
  }

  lemma TailSorted(sorted: seq<KvpParam>)
    requires SortedByKey(sorted) && sorted != []
    ensures SortedByKey(sorted[1..]) && forall q :: q in sorted ==> sorted[0].key <= q.key
    ensures |sorted| > 1 ==> sorted[0].key <= sorted[1].key
  {
  }

  lemma {:induction false} InsertSorts(p: KvpParam, sorted: seq<KvpParam>)
    requires SortedByKey(sorted)
    ensures SortedByKey(Insert(p, sorted))
  {
    hide SortedByKey;
    if sorted == [] {
      NoneSorted();
      ConsSorted(p, sorted);
    } else {
      TailSorted(sorted);
      if p.key <= sorted[0].key {
        ConsSorted(p, sorted);
      } else {
        var tail := Insert(p, sorted[1..]);
        InsertSorts(p, sorted[1..]);
        forall q | q in tail
          ensures sorted[0].key <= q.key
        {
          InsertKeepsAll(p, sorted[1..]);
          assert q in multiset(tail);
          assert q == p || q in sorted[1..];
        }
        ConsSorted(sorted[0], tail);
      }
    }
  }

  lemma {:induction false} SomeKeySortSorts(ps: seq<KvpParam>)
    ensures IsKeySort(ps, SomeKeySort(ps))
  {
    if ps != [] {
      SomeKeySortSorts(ps[1..]);
      InsertSorts(ps[0], SomeKeySort(ps[1..]));
      InsertKeepsAll(ps[0], SomeKeySort(ps[1..]));
      assert ps == [ps[0]] + ps[1..];
    }
  }

  /** std::sort by key: callers may rely on nothing but its contract. */
  method StdSort(ps: seq<KvpParam>) returns (sorted: seq<KvpParam>)
    ensures IsKeySort(ps, sorted)
  {
    SomeKeySortSorts(ps);
    sorted := SomeKeySort(ps);
  }

  function EncodeValue(p: KvpParam): seq<byte> {
    if p.key % 2 == 1 then EncodeString(p.bytesValue) else EncodeVarint(p.intValue)
  }

  function Delta(key: u64, prev: u64): u64 {
    (key - prev) % TWO64
  }

  /** Each key as its 64-bit difference from the one before. */
  function EncodePairs(ps: seq<KvpParam>, prev: u64): seq<byte> {
    if ps == [] then []
    else EncodeVarint(Delta(ps[0].key, prev)) + EncodeValue(ps[0]) + EncodePairs(ps[1..], ps[0].key)
  }

  function EncodeSorted(ps: seq<KvpParam>): seq<byte> {
    EncodeVarint(Size(|ps|)) + EncodePairs(ps, 0)
  }

  /** `bytes` is an encoding of the parameters, in whatever order the sort left equal keys. */
  ghost predicate EncodesParams(ps: seq<KvpParam>, bytes: seq<byte>) {
    exists sorted :: IsKeySort(ps, sorted) && bytes == EncodeSorted(sorted)
  }

  function ReadValue(key: u64, s: seq<byte>): Parse<KvpParam> {
    if key % 2 == 1 then
      var (bytes, t) :- ReadString(s);
      Ok(KvpParam(key, 0, bytes), t)
    else
      var (n, t) :- ReadVarint(s);
      Ok(KvpParam(key, n, []), t)
  }

  function ReadPair(s: seq<byte>, prev: u64): Parse<KvpParam> {
    var (delta, t) :- ReadVarint(s);
    ReadValue((prev + delta) % TWO64, t)
  }

  function ReadPairs(n: nat, s: seq<byte>, prev: u64, acc: seq<KvpParam>): Parse<seq<KvpParam>> {
    if n == 0 then Ok(acc, s)
    else
      var (p, t) :- ReadPair(s, prev);
      ReadPairs(n - 1, t, p.key, acc + [p])
  }

  function ReadParams(s: seq<byte>): Parse<seq<KvpParam>> {
    var (count, t) :- ReadVarint(s);
    ReadPairs(count, t, 0, [])
  }

  method EncodeParams(params: seq<KvpParam>) returns (result: seq<byte>)
    ensures EncodesParams(params, result)
  {
    hide EncodeVarint, EncodeValue;
    var sorted := StdSort(params);
    result := EncodeVarint(Size(|sorted|));
    var prev: u64 := 0;
    for i := 0 to |sorted|
      invariant result + EncodePairs(sorted[i..], prev) == EncodeSorted(sorted)
    {
      result := result + EncodeVarint(Delta(sorted[i].key, prev));
      result := result + EncodeValue(sorted[i]);
      prev := sorted[i].key;
      assert sorted[i..][1..] == sorted[i + 1..];
    }
  }

  method DecodeParams(buffer: seq<byte>) returns (r: Parse<seq<KvpParam>>)
    ensures r == ReadParams(buffer)
  {
    var head :- ReadVarint(buffer);
    var (count, unread) := head;
    var params: seq<KvpParam> := [];
    var prev: u64 := 0;
    var i := 0;
    while i < count
      invariant i <= count
      invariant ReadPairs(count - i, unread, prev, params) == ReadParams(buffer)
    {
      var pair :- ReadPair(unread, prev);
      params, prev, unread, i := params + [pair.0], pair.0.key, pair.1, i + 1;
    }
    r := Ok(params, unread);
  }

  // ---- Parameter round trip -------------------------------------------------------

  /** The value a parameter's key parity puts on the wire. */
  function Carried(p: KvpParam): KvpParam {
    if p.key % 2 == 1 then p.(intValue := 0) else p.(bytesValue := [])
  }

  function AllCarried(ps: seq<KvpParam>): (r: seq<KvpParam>)
    ensures |r| == |ps| && forall i :: 0 <= i < |ps| ==> r[i] == Carried(ps[i])
  {
    seq(|ps|, i requires 0 <= i < |ps| => Carried(ps[i]))
  }

  /** Keys and varint values below 2^62, and byte values whose length fits. */
  predicate Sendable(p: KvpParam) {
    && p.key < TWO62
    && (if p.key % 2 == 1 then |p.bytesValue| <= MAX_LEN else p.intValue < TWO62)
  }

  lemma ValueRoundTrip(p: KvpParam, rest: seq<byte>)
    requires Sendable(p)
    ensures ReadValue(p.key, EncodeValue(p) + rest) == Ok(Carried(p), rest)
  {
    hide EncodeVarint, ReadVarint, EncodeString, ReadString;
    if p.key % 2 == 1 {
      StringRoundTrip(p.bytesValue, rest);
    } else {
      VarintDecodes(p.intValue, rest);
    }
  }

  /** Below 2^62 and in order, the 64-bit difference is the plain one, and adding it back never wraps. */
  lemma PairRoundTrip(p: KvpParam, prev: u64, rest: seq<byte>)
    requires Sendable(p) && prev <= p.key
    ensures Delta(p.key, prev) == p.key - prev
    ensures ReadPair(EncodeVarint(Delta(p.key, prev)) + EncodeValue(p) + rest, prev) == Ok(Carried(p), rest)
  {
    hide EncodeVarint, ReadVarint, EncodeValue, ReadValue;
    var delta, tail := p.key - prev, EncodeValue(p) + rest;
    var s := EncodeVarint(delta) + EncodeValue(p) + rest;
    assert s == EncodeVarint(delta) + tail;
    VarintDecodes(delta, tail);
    assert ReadVarint(s) == Ok(delta, tail) && (prev + delta) % TWO64 == p.key;
    ValueRoundTrip(p, rest);
  }

  lemma CarriedNext(acc: seq<KvpParam>, ps: seq<KvpParam>)
    requires ps != []
    ensures acc + [Carried(ps[0])] + AllCarried(ps[1..]) == acc + AllCarried(ps)
  {
  }

  lemma {:induction false} PairsRoundTrip(ps: seq<KvpParam>, prev: u64, rest: seq<byte>, acc: seq<KvpParam>)
    requires SortedByKey(ps) && forall p :: p in ps ==> Sendable(p)
    requires ps != [] ==> prev <= ps[0].key
    ensures ReadPairs(|ps|, EncodePairs(ps, prev) + rest, prev, acc) == Ok(acc + AllCarried(ps), rest)
  {
    hide EncodeVarint, EncodeValue, ReadPair, SortedByKey, Delta;
    if ps == [] {
      assert acc + AllCarried(ps) == acc && EncodePairs(ps, prev) + rest == rest;
    } else {
      var p, tail := ps[0], ps[1..];
      var head, more := EncodeVarint(Delta(p.key, prev)) + EncodeValue(p), EncodePairs(tail, p.key) + rest;
      TailSorted(ps);
      PairRoundTrip(p, prev, more);
      assert EncodePairs(ps, prev) + rest == head + more;
      PairsRoundTrip(tail, p.key, rest, acc + [Carried(p)]);
      CarriedNext(acc, ps);
    }
  }

  lemma SameElements(ps: seq<KvpParam>, sorted: seq<KvpParam>)
    requires multiset(ps) == multiset(sorted)
    ensures |ps| == |sorted| && forall p :: p in sorted <==> p in ps
  {
    assert |multiset(ps)| == |ps| && |multiset(sorted)| == |sorted|;
    forall p
      ensures p in sorted <==> p in ps
    {
      assert p in multiset(ps) <==> p in multiset(sorted);
    }
  }

  /**
   * Decoding an encoded list, with anything behind it, consumes exactly the encoding and returns a key-sorted
   * permutation of the list, each value kept by its key's parity.
   */
  lemma {:induction false} ParamsRoundTrip(ps: seq<KvpParam>, bytes: seq<byte>, rest: seq<byte>)
      returns (sorted: seq<KvpParam>)
    requires |ps| < TWO62 && forall p :: p in ps ==> Sendable(p)
    requires EncodesParams(ps, bytes)
    ensures IsKeySort(ps, sorted)
    ensures ReadParams(bytes + rest) == Ok(AllCarried(sorted), rest)
  {
    hide EncodeVarint, ReadVarint, EncodePairs, ReadPairs;
    sorted :| IsKeySort(ps, sorted) && bytes == EncodeSorted(sorted);
    SameElements(ps, sorted);
    var tail := EncodePairs(sorted, 0) + rest;
    VarintDecodes(|sorted|, tail);
    assert bytes + rest == EncodeVarint(|sorted|) + tail;
    assert ReadVarint(bytes + rest) == Ok(|sorted|, tail);
    PairsRoundTrip(sorted, 0, rest, []);
    assert [] + AllCarried(sorted) == AllCarried(sorted);
  }

  // ---- Canonical encoding -----------------------------------------------------------

  predicate DistinctKeys(ps: seq<KvpParam>) {
    forall i, j :: 0 <= i < j < |ps| ==> ps[i].key != ps[j].key
  }

  lemma FirstOfSort(a: seq<KvpParam>, b: seq<KvpParam>)
    requires SortedByKey(a) && SortedByKey(b) && multiset(a) == multiset(b) && a != [] && DistinctKeys(a)
    ensures b != [] && a[0] == b[0]
  {
    SameElements(a, b);
    assert a[0] in b && b[0] in a;
    var i :| 0 <= i < |b| && b[i] == a[0];
    var j :| 0 <= j < |a| && a[j] == b[0];
    assert b[0].key <= b[i].key && a[0].key <= a[j].key;
  }

  lemma TailMultiset(a: seq<KvpParam>)
    requires a != []
    ensures multiset(a[1..]) == multiset(a) - multiset{a[0]}
  {
    assert a == [a[0]] + a[1..];
  }

  /** With distinct keys the sort has no freedom. */
  lemma {:induction false} SortIsUnique(a: seq<KvpParam>, b: seq<KvpParam>)
    requires SortedByKey(a) && SortedByKey(b) && multiset(a) == multiset(b) && DistinctKeys(a)
    ensures a == b
  {
    SameElements(a, b);
    if a != [] {
      FirstOfSort(a, b);
      TailMultiset(a);
      TailMultiset(b);
      SortIsUnique(a[1..], b[1..]);
      assert a == [a[0]] + a[1..] && b == [b[0]] + b[1..];
    }
  }

  lemma TwiceIn(qs: seq<KvpParam>, i: nat, j: nat)
    requires i < j < |qs| && qs[i] == qs[j]
    ensures multiset(qs)[qs[i]] >= 2
  {
    assert qs == qs[..j] + [qs[j]] + qs[j + 1..];
    assert qs[i] in qs[..j];
  }

  lemma {:induction false} OnceIn(ps: seq<KvpParam>, p: KvpParam)
    requires DistinctKeys(ps)
    ensures multiset(ps)[p] <= 1
  {
    if ps != [] {
      assert ps == [ps[0]] + ps[1..];
      OnceIn(ps[1..], p);
      forall k | 0 <= k < |ps[1..]|
        ensures ps[1..][k] != ps[0]
      {
        assert ps[1..][k] == ps[k + 1] && ps[0].key != ps[k + 1].key;
      }
    }
  }

  lemma {:induction false} DistinctKeysShared(ps: seq<KvpParam>, qs: seq<KvpParam>)
    requires multiset(ps) == multiset(qs) && DistinctKeys(ps)
    ensures DistinctKeys(qs)
  {
    forall i, j | 0 <= i < j < |qs|
      ensures qs[i].key != qs[j].key
    {
      if qs[i].key == qs[j].key {
        SameElements(ps, qs);
        assert qs[i] in ps && qs[j] in ps;
        assert qs[i] == qs[j];
        TwiceIn(qs, i, j);
        OnceIn(ps, qs[i]);
      }
    }
  }

  /** With distinct keys every order of the same parameters is sent as the same bytes. */
  lemma {:induction false} EncodingIsCanonical(ps: seq<KvpParam>, qs: seq<KvpParam>, a: seq<byte>, b: seq<byte>)
    requires multiset(ps) == multiset(qs) && DistinctKeys(ps)
    requires EncodesParams(ps, a) && EncodesParams(qs, b)
    ensures a == b
  {
    hide EncodeSorted;
    var s :| IsKeySort(ps, s) && a == EncodeSorted(s);
    var t :| IsKeySort(qs, t) && b == EncodeSorted(t);
    DistinctKeysShared(ps, s);
    SortIsUnique(s, t);
  }
}
