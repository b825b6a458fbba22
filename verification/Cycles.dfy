/** Walks along dependency edges, cycles, and what a maximal dependency-closed order leaves out. */
module Cycles {
  import opened Sequences
  import opened Tasks

  /** Each task with its dependency entries. */
  type Deps = map<TaskId, seq<TaskId>>

  ghost predicate Closed(g: Deps) {
    forall t, d :: t in g && d in g[t] ==> d in g
  }

  /** p follows dependents edges: each task is a dependency of the next one. */
  ghost predicate Walk(g: Deps, p: seq<TaskId>) {
    && |p| > 0
    && (forall i :: 0 <= i < |p| ==> p[i] in g)
    && (forall i :: 1 <= i < |p| ==> p[i - 1] in g[p[i]])
  }

  ghost predicate WalkBetween(g: Deps, p: seq<TaskId>, from: TaskId, to: TaskId) {
    Walk(g, p) && p[0] == from && p[|p| - 1] == to
  }

  ghost predicate OnCycle(g: Deps, t: TaskId) {
    exists p :: WalkBetween(g, p, t, t) && |p| > 1
  }

  ghost predicate Cyclic(g: Deps) {
    exists t :: OnCycle(g, t)
  }

  /** t lies on a cycle or is reachable along dependents edges from a task that does. */
  ghost predicate BelowCycle(g: Deps, t: TaskId) {
    exists p, c :: WalkBetween(g, p, c, t) && OnCycle(g, c)
  }

  /** Every task of the order comes after all its dependencies. */
  ghost predicate DependenciesFirst(g: Deps, order: seq<TaskId>) {
    forall i {:trigger PlacedAfter(g, order, i)} :: 0 <= i < |order| ==> PlacedAfter(g, order, i)
  }

  ghost predicate PlacedAfter(g: Deps, order: seq<TaskId>, i: nat)
    requires i < |order|
  {
    order[i] in g && forall d :: d in g[order[i]] ==> d in order[..i]
  }

  /** Every task the order leaves out waits for another task it leaves out. */
  ghost predicate OmittedWait(g: Deps, order: seq<TaskId>) {
    forall t {:trigger Waits(g, order, t)} :: t in g && t !in order ==> Waits(g, order, t)
  }

  ghost predicate Waits(g: Deps, order: seq<TaskId>, t: TaskId)
    requires t in g
  {
    exists d :: d in g[t] && d !in order
  }

  lemma PlacedInside(g: Deps, order: seq<TaskId>)
    requires DependenciesFirst(g, order)
    ensures forall x :: x in order ==> x in g
  {
    forall x | x in order
      ensures x in g
    {
      var i :| 0 <= i < |order| && order[i] == x;
      assert PlacedAfter(g, order, i);
    }
  }

  /** Along a walk that ends in the order, positions strictly increase. */
  lemma {:induction false} WalkIncreases(g: Deps, order: seq<TaskId>, p: seq<TaskId>, k: nat) returns (j: nat)
    requires DependenciesFirst(g, order)
    requires Walk(g, p)
    requires k < |order| && order[k] == p[|p| - 1]
    ensures j <= k && order[j] == p[0]
    ensures |p| > 1 ==> j < k
    decreases |p|
  {
    if |p| == 1 {
      return k;
    }
    assert PlacedAfter(g, order, k);
    var d := p[|p| - 2];
    assert p[|p| - 1 - 1] in g[p[|p| - 1]];
    assert d in order[..k];
    var m :| 0 <= m < k && order[m] == d;
    var q := p[..|p| - 1];
    j := WalkIncreases(g, order, q, m);
  }

  lemma OrderAvoidsCycles(g: Deps, order: seq<TaskId>, t: TaskId)
    requires NoDuplicates(order)
    requires DependenciesFirst(g, order)
    requires t in order
    ensures !BelowCycle(g, t)
  {
    if BelowCycle(g, t) {
      var p, c :| WalkBetween(g, p, c, t) && OnCycle(g, c);
      var k :| 0 <= k < |order| && order[k] == t;
      var j := WalkIncreases(g, order, p, k);
      var q :| WalkBetween(g, q, c, c) && |q| > 1;
      var i := WalkIncreases(g, order, q, j);
      assert false;
    }
  }

  /** A task left out can be reached from tasks left out by a walk of any length. */
  lemma {:induction false} BackwardWalk(g: Deps, order: seq<TaskId>, t: TaskId, n: nat) returns (p: seq<TaskId>)
    requires Closed(g) && OmittedWait(g, order)
    requires t in g && t !in order
    ensures |p| == n + 1 && Walk(g, p) && p[n] == t
    ensures forall i :: 0 <= i < |p| ==> p[i] !in order
    decreases n
  {
    if n == 0 {
      return [t];
    }
    assert Waits(g, order, t);
    var d :| d in g[t] && d !in order;
    var q := BackwardWalk(g, order, d, n - 1);
    p := q + [t];
  }

  lemma OmittedBelowCycle(g: Deps, order: seq<TaskId>, t: TaskId)
    requires Closed(g) && OmittedWait(g, order)
    requires t in g && t !in order
    ensures BelowCycle(g, t)
  {
    var p := BackwardWalk(g, order, t, |g|);
    var i, j := Pigeonhole(p, g.Keys);
    assert WalkBetween(g, p[i..j + 1], p[i], p[i]);
    assert OnCycle(g, p[i]);
    assert WalkBetween(g, p[i..], p[i], t);
  }

  lemma CycleBelowItself(g: Deps, c: TaskId)
    requires OnCycle(g, c)
    ensures c in g && BelowCycle(g, c)
  {
    var q :| WalkBetween(g, q, c, c) && |q| > 1;
    assert q[0] in g;
    assert WalkBetween(g, [c], c, c);
  }

  lemma CyclicFrom(g: Deps, t: TaskId)
    requires BelowCycle(g, t)
    ensures Cyclic(g)
  {
    var p, c :| WalkBetween(g, p, c, t) && OnCycle(g, c);
  }

  /** The order contains exactly the tasks that no cycle leads to. */
  lemma OrderExact(g: Deps, order: seq<TaskId>)
    requires Closed(g)
    requires NoDuplicates(order) && DependenciesFirst(g, order) && OmittedWait(g, order)
    ensures forall t :: t in g ==> (t !in order <==> BelowCycle(g, t))
    ensures |order| <= |g|
    ensures |order| != |g| <==> Cyclic(g)
  {
    hide BelowCycle, OnCycle, DependenciesFirst, OmittedWait;
    forall t | t in g
      ensures t !in order <==> BelowCycle(g, t)
    {
      if t in order {
        OrderAvoidsCycles(g, order, t);
      } else {
        OmittedBelowCycle(g, order, t);
      }
    }
    PlacedInside(g, order);
    NoDuplicatesBound(order, g.Keys);
    if |order| != |g| {
      NoDuplicatesLength(order);
      assert Elements(order) != g.Keys;
      var t :| t in g && t !in order;
      CyclicFrom(g, t);
    }
    if c :| OnCycle(g, c) {
      CycleBelowItself(g, c);
      assert c in Elements(order) <==> c in order;
    }
  }

  /** Two orders of this kind hold the same tasks, in whatever sequence the map was walked. */
  lemma OrdersAgree(g: Deps, a: seq<TaskId>, b: seq<TaskId>)
    requires Closed(g)
    requires NoDuplicates(a) && DependenciesFirst(g, a) && OmittedWait(g, a)
    requires NoDuplicates(b) && DependenciesFirst(g, b) && OmittedWait(g, b)
    ensures Elements(a) == Elements(b)
    ensures |a| == |b|
  {
    OrderExact(g, a);
    OrderExact(g, b);
    PlacedInside(g, a);
    PlacedInside(g, b);
    forall t
      ensures t in Elements(a) <==> t in Elements(b)
    {
    }
    NoDuplicatesLength(a);
    NoDuplicatesLength(b);
  }
}
