/** The reconnect delay: a 32-bit doubling loop meant to compute min(base * 2^attempt, cap). */
module Backoff {
  import opened Bytes
  import opened Arith

  const TWO32: nat := 0x1_0000_0000

  /** base * 2^n. */
  function Power(base: nat, n: nat): nat {
    if n == 0 then base else 2 * Power(base, n - 1)
  }

  /** The same in 32-bit arithmetic. */
  function Doubled(base: u32, n: nat): u32 {
    if n == 0 then base else 2 * Doubled(base, n - 1) % TWO32
  }

  /** Some doubling reaches the cap; the loop leaves at the first. */
  predicate Capped(base: u32, cap: u32, attempt: nat) {
    exists i :: 1 <= i <= attempt && Doubled(base, i) >= cap
  }

  function Delay(base: u32, cap: u32, attempt: nat): u32 {
    if Capped(base, cap, attempt) then cap else Doubled(base, attempt)
  }

  method CalculateDelay(base: u32, cap: u32, attempt: u32) returns (delay: u32)
    ensures delay == Delay(base, cap, attempt)
  {
    delay := base;
    var i := 0;
    while i < attempt
      invariant i <= attempt && delay == Doubled(base, i) && !Capped(base, cap, i)
    {
      i, delay := i + 1, delay * 2 % TWO32;
      if delay >= cap {
        assert Doubled(base, i) >= cap;
        return cap;
      }
    }
  }

  /** Wrapping only ever loses: a wrapped doubling is at most the true one, and equal below 2^32. */
  lemma {:induction false} DoubledBelow(base: u32, n: nat)
    ensures Doubled(base, n) <= Power(base, n)
    ensures Power(base, n) < TWO32 ==> Doubled(base, n) == Power(base, n)
  {
    if n > 0 {
      DoubledBelow(base, n - 1);
    }
  }

  lemma {:induction false} PowerMonotone(base: nat, a: nat, b: nat)
    requires a <= b
    ensures Power(base, a) <= Power(base, b)
    decreases b - a
  {
    if a < b {
      PowerMonotone(base, a + 1, b);
    }
  }

  lemma DoubleWraps(n: nat)
    ensures 2 * (n % TWO32) % TWO32 == 2 * n % TWO32
  {
    var q, r := n / TWO32, n % TWO32;
    assert 2 * n == 2 * r + 2 * q * TWO32;
  }

  /** The wrapped doublings are the powers modulo 2^32. */
  lemma {:induction false} DoubledIsWrapped(base: u32, n: nat)
    ensures Doubled(base, n) == Power(base, n) % TWO32
  {
    if n > 0 {
      DoubledIsWrapped(base, n - 1);
      DoubleWraps(Power(base, n - 1));
    }
  }

  /** Some product base * 2^i up to the attempt is, modulo 2^32, at least the cap. */
  predicate CapShows(base: u32, cap: u32, attempt: nat) {
    exists i :: 1 <= i <= attempt && Power(base, i) % TWO32 >= cap
  }

  lemma CappedShows(base: u32, cap: u32, attempt: nat)
    ensures Capped(base, cap, attempt) <==> CapShows(base, cap, attempt)
  {
    hide Doubled, Power;
    forall i: nat | 1 <= i <= attempt
      ensures Doubled(base, i) == Power(base, i) % TWO32
    {
      DoubledIsWrapped(base, i);
    }
  }

  /**
   * The delay is the intended one exactly when: on attempt 0, the base is within the cap; later, base * 2^attempt is
   * below the cap or some base * 2^i on the way still shows as at least the cap modulo 2^32.
   */
  lemma {:induction false} DelayExactly(base: u32, cap: u32, attempt: nat)
    ensures Delay(base, cap, attempt) == Min(Power(base, attempt), cap) <==>
            if attempt == 0 then base <= cap else Power(base, attempt) < cap || CapShows(base, cap, attempt)
  {
    CappedShows(base, cap, attempt);
    DoubledBelow(base, attempt);
    if Capped(base, cap, attempt) {
      var i :| 1 <= i <= attempt && Doubled(base, i) >= cap;
      DoubledBelow(base, i);
      PowerMonotone(base, i, attempt);
    }
  }

  /** The first power to reach the cap comes from one below it. */
  lemma {:induction false} FirstReaching(base: nat, cap: nat, n: nat) returns (i: nat)
    requires 1 <= n && Power(base, n) >= cap
    ensures 1 <= i <= n && Power(base, i) >= cap && (i == 1 || Power(base, i - 1) < cap)
  {
    if n > 1 && Power(base, n - 1) >= cap {
      i := FirstReaching(base, cap, n - 1);
    } else {
      i := n;
    }
  }

  /** Up to 2^31 nothing wraps before the cap: every configuration in that range backs off as intended. */
  lemma {:induction false} DelayInRange(base: u32, cap: u32, attempt: nat)
    requires base <= cap <= 0x8000_0000 && base < 0x8000_0000
    ensures Delay(base, cap, attempt) == Min(Power(base, attempt), cap)
  {
    DelayExactly(base, cap, attempt);
    if attempt > 0 && Power(base, attempt) >= cap {
      var i := FirstReaching(base, cap, attempt);
      assert Power(base, i) == 2 * Power(base, i - 1) && Power(base, 0) == base;
      DoubledBelow(base, i);
      assert Doubled(base, i) >= cap;
      CappedShows(base, cap, attempt);
    }
  }

  /** Outside it the doubling can wrap to nothing. */
  lemma LargeBaseWraps()
    ensures Delay(0x8000_0000, 0xFFFF_FFFF, 1) == 0
  {
    assert Doubled(0x8000_0000, 1) == 0;
  }
}
