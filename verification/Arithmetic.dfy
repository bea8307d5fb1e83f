/** Integer facts about division and ring positions that several components share. */
module Arithmetic {

  function Min(a: nat, b: nat): nat {
    if a <= b then a else b
  }

  /** Rounded-up division, as the source writes it: `(a + b - 1) / b`. */
  function CeilDiv(a: nat, b: nat): nat
    requires b > 0
  {
    (a + b - 1) / b
  }

  lemma DivBelow(a: nat, b: nat, c: nat)
    requires b > 0
    ensures a / b < c <==> a < c * b
  {
    var q, r := a / b, a % b;
    assert a == b * q + r;
    if q < c {
      assert b * q + b <= c * b by { MulMonotone(q + 1, c, b); }
    } else {
      assert c * b <= q * b by { MulMonotone(c, q, b); }
    }
  }

  lemma CeilDivAbove(a: nat, b: nat, n: nat)
    requires b > 0
    ensures n < CeilDiv(a, b) <==> n * b < a
  {
    DivBelow(a + b - 1, b, n + 1);
    assert (n + 1) * b == n * b + b;
  }

  lemma CeilDivBounds(a: nat, b: nat)
    requires b > 0
    ensures a <= CeilDiv(a, b) * b < a + b
  {
    var q := CeilDiv(a, b);
    CeilDivAbove(a, b, q);
    if q > 0 {
      CeilDivAbove(a, b, q - 1);
      assert (q - 1) * b == q * b - b;
    }
  }

  lemma MulMonotone(a: nat, b: nat, k: nat)
    requires a <= b
    ensures a * k <= b * k
  {
    assert (b - a) * k >= 0;
    assert b * k == a * k + (b - a) * k;
  }

  /** The slot that holds the element `k` places after `start` in a ring of `size` slots. */
  function Slot(start: nat, k: nat, size: nat): (slot: nat)
    requires start < size && k <= size
    ensures slot < size
  {
    if start + k < size then start + k else start + k - size
  }

  lemma SlotIsModulo(start: nat, k: nat, size: nat)
    requires start < size && k <= size
    ensures (start + k) % size == Slot(start, k, size)
  {
    var x := start + k;
    if x < size {
      assert x / size == 0;
    } else {
      assert x == size * 1 + (x - size);
      DivModUnique(x, size, 1, x - size);
    }
  }

  lemma DivModUnique(x: nat, b: nat, q: nat, r: nat)
    requires b > 0 && x == b * q + r && r < b
    ensures x / b == q && x % b == r
  {
    DivBelow(x, b, q + 1);
    DivBelow(x, b, q);
    assert (q + 1) * b == b * q + b && q * b == b * q;
    assert x / b == q;
    assert x == b * (x / b) + x % b;
  }

  // ---------------------------------------------------------------- sums

  function Sum(n: nat, term: nat -> real): real {
    if n == 0 then 0.0 else Sum(n - 1, term) + term(n - 1)
  }

  lemma {:induction false} SumsAlike(n: nat, term: nat -> real, other: nat -> real)
    requires forall k: nat | k < n :: term(k) == other(k)
    ensures Sum(n, term) == Sum(n, other)
  {
    if n > 0 {
      SumsAlike(n - 1, term, other);
    }
  }

  /** A sum with at most one term that is not zero is that term. */
  lemma {:induction false} SumOfOne(n: nat, term: nat -> real, only: nat)
    requires forall k: nat | k < n && k != only :: term(k) == 0.0
    ensures Sum(n, term) == if only < n then term(only) else 0.0
  {
    if n > 0 {
      SumOfOne(n - 1, term, only);
    }
  }
}
