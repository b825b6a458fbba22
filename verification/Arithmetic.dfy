/** Division facts that the solver does not find by itself. */
module Arithmetic {
  const NANOS_PER_MICRO := 1_000
  const NANOS_PER_MILLI := 1_000_000

  function Min(a: int, b: int): int { if a < b then a else b }

  function Max(a: int, b: int): int { if a > b then a else b }

  /** The quotient that C++ forms, towards zero. */
  function Truncated(x: int, c: int): (q: int)
    requires c > 0
    ensures if x >= 0 then c * q <= x < c * q + c else c * q - c < x <= c * q
  {
    if x >= 0 then x / c else -(-x / c)
  }

  lemma Multiples(c: int, d: int)
    requires c > 0
    ensures d >= 1 ==> c * d >= c
    ensures d <= 0 ==> c * d <= 0
    ensures d <= -1 ==> c * d <= -c
  {
  }

  lemma ProductMonotone(a: nat, b: nat, c: nat)
    requires b <= c
    ensures a * b <= a * c
  {
  }

  /** A quotient and a remainder in range are the quotient and the remainder. */
  lemma Divided(x: int, c: int, q: int, r: int)
    requires 0 <= r < c && x == c * q + r
    ensures x / c == q && x % c == r
  {
    var d := x / c - q;
    assert x == c * (x / c) + x % c;
    assert c * d == r - x % c;
    Multiples(c, d);
  }

  /** x modulo m, in a form that can be hidden. */
  function Wrap(x: nat, m: nat): (r: nat)
    requires m > 0
    ensures r < m
  {
    x % m
  }

  lemma WrapNext(x: nat, m: nat)
    requires m > 0
    ensures Wrap(x + 1, m) == if Wrap(x, m) + 1 == m then 0 else Wrap(x, m) + 1
    ensures (x + 1) / m == x / m + if Wrap(x, m) + 1 == m then 1 else 0
  {
    var q, t := x / m, x % m;
    assert x == m * q + t;
    if t + 1 == m {
      assert m * (q + 1) == m * q + m;
      Divided(x + 1, m, q + 1, 0);
    } else {
      Divided(x + 1, m, q, t + 1);
    }
  }

  lemma WrapSmall(x: nat, m: nat)
    requires x < m
    ensures Wrap(x, m) == x && x / m == 0
  {
    Divided(x, m, 0, x);
  }

  lemma WrapSum(x: nat, i: nat, m: nat)
    requires i <= m && m > 0
    ensures Wrap(x + i, m) == if Wrap(x, m) + i < m then Wrap(x, m) + i else Wrap(x, m) + i - m
  {
    var t := x % m;
    assert x == m * (x / m) + t;
    if t + i < m {
      Divided(x + i, m, x / m, t + i);
    } else {
      assert m * (x / m + 1) == m * (x / m) + m;
      Divided(x + i, m, x / m + 1, t + i - m);
    }
  }

  /** Different numbers with one remainder are at least m apart. */
  lemma WrapEqual(x: nat, y: nat, m: nat)
    requires m > 0 && x < y && Wrap(x, m) == Wrap(y, m)
    ensures y - x >= m
  {
    var d := y / m - x / m;
    assert m * d == y - x;
    Multiples(m, d);
  }
}
