/** Facts about finite sequences that several components share. */
module Sequences {

  /** s without any occurrence of x, in order: what `erase(remove(begin, end, x), end)` leaves. */
  function Without<T(==)>(s: seq<T>, x: T): seq<T> {
    if s == [] then [] else (if s[0] == x then [] else [s[0]]) + Without(s[1..], x)
  }

  function Elements<T(==)>(s: seq<T>): set<T> {
    set x | x in s
  }

  ghost predicate NoDuplicates<T>(s: seq<T>) {
    forall i, j :: 0 <= i < j < |s| ==> s[i] != s[j]
  }

  lemma {:induction false} WithoutContents<T>(s: seq<T>, x: T)
    ensures multiset(Without(s, x)) == multiset(s)[x := 0]
    ensures |Without(s, x)| == |s| - multiset(s)[x]
    ensures forall y :: y in Without(s, x) <==> y in s && y != x
  {
    if s != [] {
      WithoutContents(s[1..], x);
      assert s == [s[0]] + s[1..];
    }
  }

  lemma {:induction false} WithoutConcat<T>(a: seq<T>, b: seq<T>, x: T)
    ensures Without(a + b, x) == Without(a, x) + Without(b, x)
  {
    if a == [] {
      assert a + b == b;
    } else {
      WithoutConcat(a[1..], b, x);
      assert (a + b)[0] == a[0] && (a + b)[1..] == a[1..] + b;
      var head := if a[0] == x then [] else [a[0]];
      assert Without(a + b, x) == head + Without(a[1..] + b, x);
      assert head + (Without(a[1..], x) + Without(b, x)) == (head + Without(a[1..], x)) + Without(b, x);
    }
  }

  lemma {:induction false} WithoutAbsent<T>(s: seq<T>, x: T)
    requires x !in s
    ensures Without(s, x) == s
  {
    if s != [] {
      WithoutAbsent(s[1..], x);
      assert s == [s[0]] + s[1..];
    }
  }

  /** A duplicate-free sequence is as long as the set of its elements. */
  lemma {:induction false} NoDuplicatesLength<T>(s: seq<T>)
    requires NoDuplicates(s)
    ensures |Elements(s)| == |s|
  {
    if s != [] {
      var last := |s| - 1;
      NoDuplicatesLength(s[..last]);
      assert Elements(s) == Elements(s[..last]) + {s[last]};
    }
  }

  lemma NoDuplicatesBound<T>(s: seq<T>, bound: set<T>)
    requires NoDuplicates(s)
    requires forall x :: x in s ==> x in bound
    ensures |s| <= |bound|
    ensures |s| == |bound| ==> forall x :: x in bound ==> x in s
  {
    NoDuplicatesLength(s);
    SubsetSize(Elements(s), bound);
  }

  lemma {:induction false} SubsetSize<T>(a: set<T>, b: set<T>)
    requires a <= b
    ensures |a| <= |b|
    ensures |a| == |b| ==> a == b
  {
    if a != {} {
      var x :| x in a;
      SubsetSize(a - {x}, b - {x});
    }
  }

  /** Pigeonhole: a sequence longer than the set it draws from repeats an element. */
  lemma Pigeonhole<T>(s: seq<T>, bound: set<T>) returns (i: nat, j: nat)
    requires forall x :: x in s ==> x in bound
    requires |s| > |bound|
    ensures i < j < |s| && s[i] == s[j]
  {
    if NoDuplicates(s) {
      NoDuplicatesBound(s, bound);
      assert false;
    }
    i, j :| 0 <= i < j < |s| && s[i] == s[j];
  }

  /** Entries of s that are not in done. */
  ghost function Open(s: seq<nat>, done: set<nat>): nat {
    if s == [] then 0 else (if s[0] in done then 0 else 1) + Open(s[1..], done)
  }

  lemma {:induction false} OpenAfter(s: seq<nat>, done: set<nat>, id: nat)
    requires id !in done
    ensures Open(s, done) == Open(s, done + {id}) + multiset(s)[id]
  {
    if s != [] {
      OpenAfter(s[1..], done, id);
      assert s == [s[0]] + s[1..];
    }
  }

  lemma {:induction false} OpenZero(s: seq<nat>, done: set<nat>)
    ensures Open(s, done) == 0 <==> forall d :: d in s ==> d in done
  {
    if s != [] {
      OpenZero(s[1..], done);
      assert s == [s[0]] + s[1..];
    }
  }

  lemma {:induction false} OpenNone(s: seq<nat>)
    ensures Open(s, {}) == |s|
  {
    if s != [] {
      OpenNone(s[1..]);
    }
  }

  lemma {:induction false} OpenBound(s: seq<nat>, done: set<nat>)
    ensures Open(s, done) <= |s|
    ensures Open(s, done) == |s| <==> forall d :: d in s ==> d !in done
  {
    if s != [] {
      OpenBound(s[1..], done);
      assert s == [s[0]] + s[1..];
    }
  }

  lemma OneMore(s: seq<nat>, j: nat)
    requires j < |s|
    ensures multiset(s[..j + 1]) == multiset(s[..j]) + multiset{s[j]}
    ensures multiset(s[..j + 1])[s[j]] <= multiset(s)[s[j]]
  {
    assert s[..j + 1] == s[..j] + [s[j]];
    assert s == s[..j + 1] + s[j + 1..];
  }

  /** The sum of m over the keys below n. */
  ghost function Sum(m: map<nat, int>, n: nat): int {
    if n == 0 then 0 else Sum(m, n - 1) + At(m, n - 1)
  }

  ghost function At(m: map<nat, int>, i: nat): int {
    if i in m then m[i] else 0
  }

  lemma {:induction false} SumSame(m: map<nat, int>, m': map<nat, int>, n: nat)
    requires forall i: nat {:trigger At(m', i)} :: i < n ==> At(m', i) == At(m, i)
    ensures Sum(m', n) == Sum(m, n)
  {
    if n > 0 {
      SumSame(m, m', n - 1);
      assert At(m', n - 1) == At(m, n - 1);
    }
  }

  /** Two maps that differ at one key differ in their sums by the difference there. */
  lemma {:induction false} SumChange(m: map<nat, int>, m': map<nat, int>, k: nat, n: nat)
    requires k < n
    requires forall i: nat {:trigger At(m', i)} :: i < n && i != k ==> At(m', i) == At(m, i)
    ensures Sum(m', n) - Sum(m, n) == At(m', k) - At(m, k)
  {
    if n - 1 == k {
      SumSame(m, m', n - 1);
    } else {
      SumChange(m, m', k, n - 1);
      assert At(m', n - 1) == At(m, n - 1);
    }
  }

  lemma {:induction false} SumNonNegative(m: map<nat, int>, n: nat)
    requires forall i: nat {:trigger At(m, i)} :: i < n ==> At(m, i) >= 0
    ensures Sum(m, n) >= 0
  {
    if n > 0 {
      SumNonNegative(m, n - 1);
      assert At(m, n - 1) >= 0;
    }
  }

  /** A change of one part of a bag is the same change of the whole. */
  lemma Shuffle<T>(a: multiset<T>, b: multiset<T>, rest: multiset<T>, gone: multiset<T>, come: multiset<T>)
    requires b + gone == a + come
    ensures (b + rest) + gone == (a + rest) + come
  {
    assert (b + rest) + gone == (b + gone) + rest;
    assert (a + rest) + come == (a + come) + rest;
  }
}
