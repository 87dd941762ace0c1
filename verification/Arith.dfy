/** The few facts about multiplication and division by a variable that the audio buffers need. */
module Arith {
  function Min(a: int, b: int): int {
    if a <= b then a else b
  }

  function Max(a: int, b: int): int {
    if a >= b then a else b
  }

  /** Named to keep the product out of proofs that do not need it. */
  predicate IsProduct(n: nat, a: nat, b: nat) {
    n == a * b
  }

  lemma MulMonotone(a: nat, b: nat, c: nat)
    requires a <= b
    ensures a * c <= b * c
    ensures a < b ==> a * c + c <= b * c
  {
    if a < b {
      var d := b - a - 1;
      assert b * c == (a + 1 + d) * c == a * c + c + d * c;
    }
  }

  lemma DivUnique(x: nat, c: nat, q: nat, r: nat)
    requires r < c && x == q * c + r
    ensures x / c == q && x % c == r
  {
    var q' := x / c;
    assert x == q' * c + x % c;
    if q' < q {
      MulMonotone(q', q, c);
    } else if q < q' {
      MulMonotone(q, q', c);
    }
  }

  lemma ModMul(k: nat, c: nat)
    requires c > 0
    ensures (k * c) % c == 0 && (k * c) / c == k
  {
    DivUnique(k * c, c, k, 0);
  }

  lemma ModAdd(a: nat, b: nat, c: nat)
    requires c > 0 && a % c == 0 && b % c == 0
    ensures (a + b) % c == 0 && (a + b) / c == a / c + b / c
  {
    assert a + b == (a / c + b / c) * c + 0;
    DivUnique(a + b, c, a / c + b / c, 0);
  }

  lemma ModSub(a: nat, b: nat, c: nat)
    requires c > 0 && a % c == 0 && b % c == 0 && b <= a
    ensures (a - b) % c == 0 && (a - b) / c == a / c - b / c
  {
    var x, y := a / c, b / c;
    if x < y {
      MulMonotone(x, y, c);
    }
    assert a - b == (x - y) * c + 0;
    DivUnique(a - b, c, x - y, 0);
  }

  /** k * c by repeated addition, so that proofs about it stay linear. */
  function Times(k: nat, c: nat): (r: nat) {
    if k == 0 then 0 else Times(k - 1, c) + c
  }

  /** n / c by repeated subtraction. */
  function Over(n: nat, c: nat): (q: nat)
    requires c > 0
  {
    if n < c then 0 else Over(n - c, c) + 1
  }

  lemma {:induction false} TimesIsProduct(k: nat, c: nat)
    ensures Times(k, c) == k * c
  {
    if k > 0 {
      TimesIsProduct(k - 1, c);
    }
  }

  lemma {:induction false} OverIsQuotient(n: nat, c: nat)
    requires c > 0
    ensures Over(n, c) == n / c
  {
    if n < c {
      DivUnique(n, c, 0, n);
    } else {
      OverIsQuotient(n - c, c);
      var q := (n - c) / c;
      DivUnique(n, c, q + 1, (n - c) % c);
    }
  }

  /** The one fact linking the two: n / c >= k exactly when n >= k * c. */
  lemma {:induction false} OverAtLeast(n: nat, k: nat, c: nat)
    requires c > 0
    ensures Over(n, c) >= k <==> n >= Times(k, c)
  {
    if n >= c && k > 0 {
      OverAtLeast(n - c, k - 1, c);
    }
  }

  lemma OverTimes(k: nat, c: nat)
    requires c > 0
    ensures Over(Times(k, c), c) == k
  {
    OverAtLeast(Times(k, c), k, c);
    OverAtLeast(Times(k, c), k + 1, c);
  }

  lemma {:induction false} TimesMonotone(a: nat, b: nat, c: nat)
    requires a <= b
    ensures Times(a, c) <= Times(b, c)
    decreases b - a
  {
    if a < b {
      TimesMonotone(a + 1, b, c);
    }
  }
}
