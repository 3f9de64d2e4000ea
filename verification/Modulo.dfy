// Facts about remainders.
module Modulo {

  lemma {:induction false} AddMultiple(q: nat, r: nat, n: nat)
    requires n > 0
    ensures (n * q + r) % n == r % n
  {
    if q > 0 {
      AddMultiple(q - 1, r, n);
      assert n * q + r == (n * (q - 1) + r) + n;
      AddOnce(n * (q - 1) + r, n);
    }
  }

  lemma AddOnce(x: nat, n: nat)
    requires n > 0
    ensures (x + n) % n == x % n
  {
    var q := x / n;
    assert x + n == n * (q + 1) + x % n;
    Unique(x + n, q + 1, x % n, n);
  }

  lemma SmallMultiple(n: int, e: int)
    requires -n < n * e < n
    ensures e == 0
  {
    assert e >= 1 ==> n * e >= n;
    assert e <= -1 ==> n * e <= -n;
  }

  /** Two ways to write a number as a multiple of n and a rest below n. */
  lemma SameParts(n: nat, q: nat, r: nat, d: nat, s: nat)
    requires n * q + r == n * d + s && r < n && s < n
    ensures q == d && r == s
  {
    assert n * (d - q) == n * d - n * q;
    SmallMultiple(n, d - q);
  }

  lemma Unique(x: nat, q: nat, r: nat, n: nat)
    requires n > 0 && x == n * q + r && r < n
    ensures x % n == r
  {
    SameParts(n, q, r, x / n, x % n);
  }

  /** Within a window of n numbers remainders differ. */
  lemma Differ(a: nat, b: nat, n: nat)
    requires n > 0 && a < b < a + n
    ensures a % n != b % n
  {
    var q, d, r, s := a / n, b / n, a % n, b % n;
    assert a == n * q + r && b == n * d + s;
    DifferParts(n, q, r, d, s);
  }

  lemma DifferParts(n: nat, q: nat, r: nat, d: nat, s: nat)
    requires n * q + r < n * d + s < n * q + r + n
    ensures r != s
  {
    if r == s {
      assert n * (d - q) == n * d - n * q;
      SmallMultiple(n, d - q);
    }
  }

  /** An index that wraps at a multiple of n names the same place. */
  lemma Through(x: nat, m: nat, n: nat, c: nat)
    requires n > 0 && m == n * c && m > 0
    ensures x % m % n == x % n
  {
    var q := x / m;
    assert x == m * q + x % m;
    assert m * q == n * (c * q);
    AddMultiple(c * q, x % m, n);
  }
}
