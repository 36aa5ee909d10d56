/** Division with remainder, where the divisor is not a constant. */
module Arithmetic {

  /** A multiple of n strictly between -n and n is zero. */
  lemma SmallMultiple(n: int, d: int)
    requires n > 0 && -n < n * d < n
    ensures d == 0
  {
    assert d >= 1 ==> n * d >= n;
    assert d <= -1 ==> n * d <= -n;
  }

  /** Quotient and remainder are unique. */
  lemma ModOf(q: int, r: nat, n: nat)
    requires r < n
    ensures (n * q + r) % n == r
  {
    var x := n * q + r;
    assert x == n * (x / n) + x % n;
    assert n * (x / n - q) == r - x % n;
    SmallMultiple(n, x / n - q);
  }

  lemma DivOf(q: int, r: nat, n: nat)
    requires r < n
    ensures (n * q + r) / n == q
  {
    var x := n * q + r;
    assert x == n * (x / n) + x % n;
    assert n * (x / n - q) == r - x % n;
    SmallMultiple(n, x / n - q);
  }

  lemma {:induction false} MulBelow(a: nat, b: nat, r: nat)
    requires r < b
    ensures a * r <= a * b - a
    decreases b - r
  {
    if r + 1 < b {
      MulBelow(a, b, r + 1);
    }
  }

  lemma DivParts(a: nat, b: nat, q: nat, r1: nat, r0: nat)
    requires r1 < b && r0 < a
    ensures a * b > 0 && (a * (b * q + r1) + r0) / (a * b) == q
  {
    MulBelow(a, b, r1);
    assert a * (b * q + r1) == (a * b) * q + a * r1;
    DivOf(q, a * r1 + r0, a * b);
  }

  lemma Division(x: nat, a: nat)
    requires a > 0
    ensures x == a * (x / a) + x % a && x % a < a
  {
  }

  /** Dividing twice is dividing by the product. */
  lemma DivDiv(x: nat, a: nat, b: nat)
    requires a > 0 && b > 0
    ensures a * b > 0 && x / a / b == x / (a * b)
  {
    Division(x, a);
    Division(x / a, b);
    var q, r1, r0 := x / a / b, x / a % b, x % a;
    DivParts(a, b, q, r1, r0);
  }

  /** Equal remainders differ by a multiple. */
  lemma SameRemainder(i: int, j: int, n: nat)
    requires n > 0 && i % n == j % n
    ensures j - i == n * (j / n - i / n)
  {
    assert i == n * (i / n) + i % n && j == n * (j / n) + j % n;
    assert n * (j / n - i / n) == n * (j / n) - n * (i / n);
  }

  /** Of any n numbers in a row one has a given remainder, */
  lemma OneRemainder(n: nat, from: nat, a: nat) returns (i: nat)
    requires a < n
    ensures from <= i < from + n && i % n == a
  {
    var q, r := from / n, from % n;
    i := if r <= a then from + (a - r) else from + (a - r) + n;
    assert from == n * q + r;
    assert i == n * q + a || i == n * (q + 1) + a;
    ModOf(q, a, n);
    ModOf(q + 1, a, n);
  }

  /** and only one. */
  lemma OnlyRemainder(n: int, i: int, j: int)
    requires n > 0 && i % n == j % n && -n < j - i < n
    ensures i == j
  {
    SameRemainder(i, j, n);
    SmallMultiple(n, j / n - i / n);
  }
}
