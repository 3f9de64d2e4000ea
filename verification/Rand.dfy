// The Park-Miller generator, computed by Schrage's method so that no product overflows.
module Rand {

  const M: int := 0x7fff_ffff   // 2^31 - 1 == Q * A + R
  const A: int := 16807         // 7^5
  const Q: int := 127773
  const R: int := 2836
  const INVERSE: int := 1407677000  // of A modulo M

  /** 16807 * lo - 2836 * hi, and whether it and its terms fit in a signed 32-bit word. */
  function Schrage(x: int): int
    requires 0 <= x
  {
    A * (x % Q) - R * (x / Q)
  }

  lemma SchrageFits(x: int)
    requires 1 <= x < M
    ensures 0 <= A * (x % Q) <= M && 0 <= R * (x / Q) <= M
    ensures -M < Schrage(x) < M
  {
  }

  lemma SchrageCongruent(x: int)
    requires 0 <= x
    ensures A * x == M * (x / Q) + Schrage(x)
  {
    assert x == Q * (x / Q) + x % Q;
  }

  /** One step on [1, M-1], without the shift that do_rand puts around it. */
  function Step(x: int): int
    requires 1 <= x < M
  {
    var s := Schrage(x);
    if s < 0 then s + M else s
  }

  lemma ModUnique(a: int, q: int, r: int)
    requires a == M * q + r && 0 <= r < M
    ensures a % M == r
  {
  }

  lemma StepIsProduct(x: int)
    requires 1 <= x < M
    ensures Step(x) == A * x % M
  {
    SchrageFits(x);
    SchrageCongruent(x);
    hide Schrage;
    var s, h := Schrage(x), x / Q;
    if s < 0 {
      ModUnique(A * x, h - 1, s + M);
    } else {
      ModUnique(A * x, h, s);
    }
  }

  // ---- The step is a permutation of [1, M-1] --------------------------------------------------

  function StepBack(y: int): int {
    INVERSE * y % M
  }

  lemma StepBackUndoes(x: int)
    requires 1 <= x < M
    ensures 1 <= Step(x) < M && StepBack(Step(x)) == x
  {
    StepIsProduct(x);
    var q := A * x / M;
    var s := A * x - M * q;
    assert s == Step(x) && 0 <= s < M;
    assert INVERSE * s == M * (11017 * x - INVERSE * q) + x;
    ModUnique(INVERSE * s, 11017 * x - INVERSE * q, x);
  }

  lemma StepRedoes(y: int)
    requires 1 <= y < M
    ensures 1 <= StepBack(y) < M && Step(StepBack(y)) == y
  {
    var q := INVERSE * y / M;
    var x := INVERSE * y - M * q;
    assert x == StepBack(y) && 0 <= x < M;
    assert A * x == M * (11017 * y - A * q) + y;
    if x == 0 {
      assert false;
    }
    StepIsProduct(x);
    ModUnique(A * x, 11017 * y - A * q, y);
  }

  // ---- do_rand --------------------------------------------------------------------------------

  /** The state after one call. */
  function Next(ctx: nat): int {
    Step(ctx % (M - 1) + 1) - 1
  }

  /** Every value of [0, M-2] has exactly one predecessor there, so the state never leaves it. */
  lemma NextIsBijective(y: int)
    requires 0 <= y < M - 1
    ensures 0 <= Next(y) < M - 1
    ensures exists x :: 0 <= x < M - 1 && Next(x) == y
    ensures forall z :: 0 <= z < M - 1 && Next(z) == Next(y) ==> z == y
  {
    hide Step, StepBack, Next;
    StepBackUndoes(y + 1);
    NextIs(y);
    var x := StepBack(y + 1) - 1;
    StepRedoes(y + 1);
    NextIs(x);
    assert Next(x) == y;
    forall z | 0 <= z < M - 1 && Next(z) == Next(y)
      ensures z == y
    {
      NextIs(z);
      StepBackUndoes(z + 1);
    }
  }

  lemma NextIs(x: nat)
    requires x < M - 1
    ensures Next(x) == Step(x + 1) - 1
  {
    hide Step;
    assert x % (M - 1) == x;
  }

  function Power(k: nat): nat {
    if k == 0 then 1 else A * Power(k-1)
  }

  /** The state after k calls. */
  function After(seed: nat, k: nat): int
    ensures k > 0 ==> 0 <= After(seed, k) < M - 1
  {
    if k == 0 then seed
    else
      var before := After(seed, k-1);
      StepBackUndoes(before % (M - 1) + 1);
      Next(before)
  }

  lemma ProductMod(t: nat, r: int)
    requires r == t % M
    ensures A * r % M == A * t % M
  {
    var q, p := t / M, A * r / M;
    assert A * t == M * (A * q + p) + A * r % M;
    ModUnique(A * t, A * q + p, A * r % M);
  }

  lemma Regroup(p: nat, s: nat)
    ensures A * (p * s) == (A * p) * s
  {
  }

  /** After k calls the state is 16807^k * (seed + 1) mod (2^31 - 1), less one. */
  lemma {:induction false} AfterIsPower(seed: nat, k: nat)
    requires seed < M - 1
    ensures After(seed, k) + 1 == Power(k) * (seed + 1) % M
  {
    if k > 0 {
      hide Step, Next;
      AfterIsPower(seed, k-1);
      var t := Power(k-1) * (seed + 1);
      var x := After(seed, k-1) + 1;
      NextIs(After(seed, k-1));
      StepIsProduct(x);
      ProductMod(t, x);
      Regroup(Power(k-1), seed + 1);
    }
  }

  class Generator {
    var next: nat
    ghost var seed: nat
    ghost var calls: nat

    ghost predicate Valid()
      reads this
    {
      next == After(seed, calls)
    }

    constructor ()
      ensures Valid() && seed == 1 && calls == 0
    {
      next, seed, calls := 1, 1, 0;
    }

    /** do_rand on the generator's own state. */
    method Rand() returns (r: int)
      requires Valid()
      modifies this`next, this`calls
      ensures Valid() && calls == old(calls) + 1
      ensures r == next == After(seed, calls) && 0 <= r < M - 1
    {
      hide Step, Schrage;
      var x := next % (M - 1) + 1;
      SchrageFits(x);
      StepBackUndoes(x);
      SchrageIs(x);
      var hi := x / Q;
      var lo := x % Q;
      x := A * lo - R * hi;
      if x < 0 {
        x := x + M;
      }
      x := x - 1;
      next := x;
      calls := calls + 1;
      r := x;
    }
  }

  lemma SchrageIs(x: int)
    requires 1 <= x < M
    ensures Schrage(x) == A * (x % Q) - R * (x / Q)
    ensures Step(x) == if Schrage(x) < 0 then Schrage(x) + M else Schrage(x)
  {
  }
}
