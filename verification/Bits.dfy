// Bit operations of 64-bit words, on numbers.
module Bits {
  import opened Modulo

  /** 1 << k, and whether x & (1 << k) is nonzero. */
  function Mask(k: nat): (m: nat)
    ensures m > 0
  {
    if k == 0 then 1 else 2 * Mask(k-1)
  }

  predicate Bit(x: nat, k: nat) {
    if k == 0 then x % 2 == 1 else Bit(x / 2, k-1)
  }

  /** Adding a clear bit or taking away a set one changes that bit only, and never carries. */
  lemma {:induction false} MaskedBit(x: nat, k: nat, j: nat)
    ensures !Bit(x, k) ==> (Bit(x + Mask(k), j) <==> Bit(x, j) || j == k)
    ensures Bit(x, k) ==> x >= Mask(k) && (Bit(x - Mask(k), j) <==> Bit(x, j) && j != k)
  {
    if k > 0 {
      MaskedBit(x / 2, k-1, if j > 0 then j-1 else 0);
      assert (x + Mask(k)) / 2 == x / 2 + Mask(k-1);
      assert x >= Mask(k) ==> (x - Mask(k)) / 2 == x / 2 - Mask(k-1);
    } else {
      assert !Bit(x, 0) ==> (x + 1) / 2 == x / 2;
      assert Bit(x, 0) ==> (x - 1) / 2 == x / 2;
    }
  }

  lemma {:induction false} MaskedByte(x: nat, k: nat, n: nat)
    requires k < n && x < Mask(n) && !Bit(x, k)
    ensures x + Mask(k) < Mask(n)
  {
    assert Mask(n) == 2 * Mask(n-1);
    if k > 0 {
      MaskedByte(x / 2, k-1, n-1);
    }
  }

  // ---- Shifts and masks -------------------------------------------------------------------------

  const WORD64: nat := 0x1_0000_0000_0000_0000

  function Shl(x: nat, k: nat): nat {
    x * Mask(k) % WORD64
  }

  lemma NatQuotient(x: nat, m: nat)
    requires m > 0
    ensures x / m >= 0
  {
  }

  function Shr(x: nat, k: nat): nat {
    NatQuotient(x, Mask(k));
    x / Mask(k)
  }

  function And(x: nat, y: nat): nat {
    if x == 0 then 0 else 2 * And(x / 2, y / 2) + if x % 2 == 1 && y % 2 == 1 then 1 else 0
  }

  function Or(x: nat, y: nat): nat
    decreases x + y
  {
    if x == 0 && y == 0 then 0 else 2 * Or(x / 2, y / 2) + if x % 2 == 1 || y % 2 == 1 then 1 else 0
  }

  lemma {:induction false} AndZero(x: nat)
    ensures And(x, 0) == 0
  {
    if x > 0 {
      AndZero(x / 2);
    }
  }

  lemma {:induction false} OrZero(x: nat)
    ensures Or(x, 0) == x
  {
    if x > 0 {
      OrZero(x / 2);
    }
  }

  /** Putting a number in the low bits that another one leaves free. */
  lemma {:induction false} OrLow(x: nat, y: nat, k: nat)
    requires y < Mask(k)
    ensures Or(x * Mask(k), y) == x * Mask(k) + y
  {
    if k == 0 {
      OrZero(x);
    } else {
      assert x * Mask(k) == 2 * (x * Mask(k-1));
      OrLow(x, y / 2, k-1);
    }
  }

  /** Masking with k one bits takes the remainder. */
  lemma {:induction false} AndMask(x: nat, k: nat)
    ensures Mask(k) > 0 && And(x, Mask(k) - 1) == x % Mask(k)
  {
    if k == 0 {
      AndZero(x);
    } else {
      AndMask(x / 2, k-1);
      assert (Mask(k) - 1) / 2 == Mask(k-1) - 1;
      HalfRemainder(x, Mask(k-1));
    }
  }

  lemma HalfRemainder(x: nat, m: nat)
    requires m > 0
    ensures x % (2 * m) == 2 * (x / 2 % m) + x % 2
  {
    var q, r := x / 2 / m, x / 2 % m;
    assert x == (2 * m) * q + (2 * r + x % 2) by {
      assert x / 2 == m * q + r;
      assert (2 * m) * q == 2 * (m * q);
    }
    Unique(x, q, 2 * r + x % 2, 2 * m);
  }

  /** The low bits of a word are those of the number put there. */
  lemma {:induction false} BitLow(x: nat, y: nat, n: nat, k: nat)
    requires k < n && y < Mask(n)
    ensures Bit(x * Mask(n) + y, k) <==> Bit(y, k)
  {
    assert x * Mask(n) == 2 * (x * Mask(n-1));
    if k > 0 {
      BitLow(x, y / 2, n-1, k-1);
      assert (x * Mask(n) + y) / 2 == x * Mask(n-1) + y / 2;
    }
  }
}
