/** The bit trick of include/task_engine/task_queue.hpp: testing for a power of two and replacing a
    remainder by a mask. `BitAnd` is bitwise and on unsigned integers, digit by digit. */
module BitMask {
  import opened Arithmetic

  function BitAnd(a: nat, b: nat): nat {
    if a == 0 || b == 0 then 0 else 2 * BitAnd(a / 2, b / 2) + (a % 2) * (b % 2)
  }

  function Pow2(k: nat): nat {
    if k == 0 then 1 else 2 * Pow2(k - 1)
  }

  ghost predicate IsPowerOfTwo(c: nat) {
    exists k: nat :: c == Pow2(k)
  }

  lemma {:induction false} Pow2Positive(k: nat)
    ensures Pow2(k) > 0
  {
    if k > 0 {
      Pow2Positive(k - 1);
    }
  }

  lemma {:induction false} BitAndSelf(a: nat)
    ensures BitAnd(a, a) == a
  {
    if a > 0 {
      BitAndSelf(a / 2);
      var bit := a % 2;
      assert bit == 0 || bit == 1;
      assert bit * bit == bit;
      assert a == 2 * (a / 2) + bit;
    }
  }

  /** c & (c - 1) is zero exactly for the powers of two. */
  lemma {:induction false} PowerOfTwoTest(c: nat)
    requires c > 0
    ensures BitAnd(c, c - 1) == 0 <==> IsPowerOfTwo(c)
  {
    if c == 1 {
      assert Pow2(0) == 1;
    } else if c % 2 == 1 {
      BitAndSelf(c / 2);
      forall k: nat
        ensures c != Pow2(k)
      {
      }
    } else {
      PowerOfTwoTest(c / 2);
      if IsPowerOfTwo(c / 2) {
        var k: nat :| c / 2 == Pow2(k);
        assert c == Pow2(k + 1);
      }
      if IsPowerOfTwo(c) {
        var k: nat :| c == Pow2(k);
        assert c / 2 == Pow2(k - 1);
      }
    }
  }

  /** For a power of two, masking with c - 1 is the remainder modulo c. */
  lemma {:induction false} MaskIsRemainder(x: nat, k: nat)
    ensures Pow2(k) > 0 && BitAnd(x, Pow2(k) - 1) == x % Pow2(k)
    decreases k
  {
    Pow2Positive(k);
    if k > 0 {
      Pow2Positive(k - 1);
      var p, q := Pow2(k - 1), x / 2;
      MaskIsRemainder(q, k - 1);
      if x > 0 {
        assert (2 * p - 1) / 2 == p - 1;
        assert BitAnd(x, 2 * p - 1) == 2 * (q % p) + x % 2;
      }
      DoubledRemainder(x, p);
    }
  }

  lemma DoubledRemainder(x: nat, p: nat)
    requires p > 0
    ensures x % (2 * p) == 2 * ((x / 2) % p) + x % 2
  {
    var a, b := (x / 2) / p, (x / 2) % p;
    assert x / 2 == p * a + b;
    assert x == (2 * p) * a + (2 * b + x % 2);
    Divided(x, 2 * p, a, 2 * b + x % 2);
  }

  /** The mask on indices below twice the capacity. */
  lemma MaskWraps(x: nat, c: nat)
    requires IsPowerOfTwo(c) && x < 2 * c
    ensures c > 0 && BitAnd(x, c - 1) == if x < c then x else x - c
  {
    var k: nat :| c == Pow2(k);
    MaskIsRemainder(x, k);
    if x < c {
      Divided(x, c, 0, x);
    } else {
      Divided(x, c, 1, x - c);
    }
  }

  /** An index as the queue reduces it to a slot. */
  function Masked(x: nat, c: nat): nat
    requires c > 0
  {
    BitAnd(x, c - 1)
  }

  lemma MaskedNext(x: nat, c: nat)
    requires IsPowerOfTwo(c) && x < c
    ensures Masked(x, c) == x
    ensures Masked(x + 1, c) == if x + 1 < c then x + 1 else 0
  {
    MaskWraps(x, c);
    MaskWraps(x + 1, c);
  }
}
