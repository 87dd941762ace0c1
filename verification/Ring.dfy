/** Positions in a ring of `cap` slots and the two-part copies both audio buffers use. */
module Ring {
  import opened Bytes
  import opened Arith

  /** `n` slots after `p`, wrapping once. */
  function Fwd(p: nat, n: nat, cap: nat): (q: nat)
    requires p < cap && n <= cap
    ensures q < cap
  {
    if p + n < cap then p + n else p + n - cap
  }

  /** `n` slots before `p`, wrapping once. */
  function Back(p: nat, n: nat, cap: nat): (q: nat)
    requires p < cap && n <= cap
    ensures q < cap
    ensures Fwd(q, n, cap) == p
  {
    if p >= n then p - n else cap - (n - p)
  }

  /** The `(p + n) % cap` of the source is one wrapping step. */
  lemma ModIsFwd(p: nat, n: nat, cap: nat)
    requires p < cap && n <= cap
    ensures (p + n) % cap == Fwd(p, n, cap)
  {
    var q := Fwd(p, n, cap);
    if p + n < cap {
      assert (p + n) / cap == 0;
    } else {
      assert p + n == 1 * cap + q;
      assert (p + n) / cap == 1;
    }
  }

  /** i % cap, named to keep the operator out of proofs that do not need it. */
  function Wrap(i: nat, cap: nat): nat
    requires cap > 0
  {
    i % cap
  }

  /** The slot of stream position `i`: i % cap, by repeated subtraction so that proofs about it stay linear. */
  function Slot(i: nat, cap: nat): (q: nat)
    requires cap > 0
    ensures q < cap && q <= i
  {
    if i < cap then i else Slot(i - cap, cap)
  }

  lemma SlotZero(cap: nat)
    requires cap > 0
    ensures Slot(0, cap) == 0
  {
  }

  lemma {:induction false} SlotIsMod(i: nat, cap: nat)
    requires cap > 0
    ensures Slot(i, cap) == i % cap == Wrap(i, cap)
  {
    if i < cap {
      DivUnique(i, cap, 0, i);
    } else {
      SlotIsMod(i - cap, cap);
      var q := (i - cap) / cap;
      assert i == (q + 1) * cap + Slot(i - cap, cap);
      DivUnique(i, cap, q + 1, Slot(i - cap, cap));
    }
  }

  /** From the slot of position `i` to that of `j`, at most a lap later, and back. */
  lemma {:induction false} SlotSteps(i: nat, j: nat, cap: nat)
    requires 0 < cap && i <= j <= i + cap
    ensures Fwd(Slot(i, cap), j - i, cap) == Slot(j, cap)
    ensures Back(Slot(j, cap), j - i, cap) == Slot(i, cap)
    decreases i
  {
    if i >= cap {
      SlotSteps(i - cap, j - cap, cap);
    }
  }

  /** Positions less than a lap apart use different slots. */
  lemma {:induction false} SlotsDiffer(i: nat, j: nat, cap: nat)
    requires i < j < i + cap
    ensures Slot(i, cap) != Slot(j, cap)
    decreases i
  {
    if i >= cap {
      SlotsDiffer(i - cap, j - cap, cap);
    }
  }

  /** Slot `k` lies among the `n` slots starting at `p`. */
  predicate InWindow(k: nat, p: nat, n: nat, cap: nat)
    requires k < cap && p < cap && n <= cap
  {
    Back(k, p, cap) < n
  }

  /** The `n` floats stored from slot `p` on. */
  function Window(data: seq<Sample>, p: nat, n: nat): (w: seq<Sample>)
    requires p < |data| && n <= |data|
    ensures |w| == n
    ensures forall j :: 0 <= j < n ==> w[j] == data[Fwd(p, j, |data|)]
  {
    seq(n, j requires 0 <= j < n => data[Fwd(p, j, |data|)])
  }

  /** Skipping the first `e` floats of a window gives the window `e` slots further on. */
  lemma WindowDrop(data: seq<Sample>, p: nat, n: nat, e: nat)
    requires p < |data| && e <= n <= |data|
    ensures Window(data, Fwd(p, e, |data|), n - e) == Window(data, p, n)[e..]
  {
  }

  lemma WindowTake(data: seq<Sample>, p: nat, n: nat, m: nat)
    requires p < |data| && m <= n <= |data|
    ensures Window(data, p, m) == Window(data, p, n)[..m]
  {
  }

  /** Copying `src` in behind a window that leaves room for it extends the window by `src`. */
  lemma WindowAppend(before: seq<Sample>, after: seq<Sample>, p: nat, n: nat, src: seq<Sample>)
    requires |before| == |after| && p < |after| && n + |src| <= |after|
    requires var q := Fwd(p, n, |after|);
      && Window(after, q, |src|) == src
      && forall k :: 0 <= k < |after| && !InWindow(k, q, |src|, |after|) ==> after[k] == before[k]
    ensures Window(after, p, n + |src|) == Window(before, p, n) + src
  {
    var cap, q := |after|, Fwd(p, n, |after|);
    forall j | 0 <= j < n + |src|
      ensures Window(after, p, n + |src|)[j] == (Window(before, p, n) + src)[j]
    {
      if j < n {
        assert !InWindow(Fwd(p, j, cap), q, |src|, cap);
      } else {
        assert Fwd(p, j, cap) == Fwd(q, j - n, cap);
        assert Window(after, q, |src|)[j - n] == src[j - n];
      }
    }
  }

  /** copy_to_ring: afterwards the window at `pos` is `src` and no other slot has changed. */
  method CopyToRing(data: array<Sample>, pos: nat, src: seq<Sample>)
    requires pos < data.Length && |src| <= data.Length
    modifies data
    ensures Window(data[..], pos, |src|) == src
    ensures forall k :: 0 <= k < data.Length && !InWindow(k, pos, |src|, data.Length) ==> data[k] == old(data[k])
  {
    var remain := data.Length - pos;
    if |src| <= remain {
      forall j | 0 <= j < |src| {
        data[pos + j] := src[j];
      }
    } else {
      forall j | 0 <= j < remain {
        data[pos + j] := src[j];
      }
      forall j | 0 <= j < |src| - remain {
        data[j] := src[remain + j];
      }
    }
  }

  /** copy_from_ring: the first `n` floats of `dst` become the window at `pos`; the rest of `dst` is untouched. */
  method CopyFromRing(data: array<Sample>, pos: nat, dst: array<Sample>, n: nat)
    requires pos < data.Length && n <= data.Length && n <= dst.Length && dst != data
    modifies dst
    ensures dst[..n] == Window(data[..], pos, n)
    ensures dst[n..] == old(dst[n..])
  {
    var remain := data.Length - pos;
    if n <= remain {
      forall j | 0 <= j < n {
        dst[j] := data[pos + j];
      }
    } else {
      forall j | 0 <= j < remain {
        dst[j] := data[pos + j];
      }
      forall j | 0 <= j < n - remain {
        dst[remain + j] := data[j];
      }
    }
    assert dst[..n] == Window(data[..], pos, n);
  }
}
