/** The round-robin rule of `select_node` on values: which index is chosen from a cursor, and how
    fair a run of choices is. */
module RoundRobin {
  import opened Arithmetic

  ghost predicate NoneIn(eligible: seq<bool>, lo: nat, hi: nat)
    requires hi <= |eligible|
  {
    forall i :: lo <= i < hi ==> !eligible[i]
  }

  /** k is the first eligible index at or after the cursor, going round once. The cursor may lie
      beyond the end: removing nodes leaves it where it was. */
  ghost predicate Chosen(eligible: seq<bool>, cursor: nat, k: nat) {
    && k < |eligible| && eligible[k]
    && var c := Wrap(cursor, |eligible|);
       if c <= k then NoneIn(eligible, c, k) else NoneIn(eligible, c, |eligible|) && NoneIn(eligible, 0, k)
  }

  /** The index d places on from start, round a table of n. */
  function Place(start: nat, d: nat, n: nat): (k: nat)
    requires n > 0
    ensures k < n
  {
    (start + d) % n
  }

  /** The same by counting places forward: nothing eligible is passed over, and the next search begins
      one place after the choice. */
  lemma ChosenIsNext(eligible: seq<bool>, cursor: nat, k: nat) returns (d: nat)
    requires Chosen(eligible, cursor, k)
    ensures d < |eligible| && k == Place(cursor, d, |eligible|)
    ensures forall j: nat :: j < d ==> !eligible[Place(cursor, j, |eligible|)]
    ensures Wrap(k + 1, |eligible|) == Place(cursor, d + 1, |eligible|)
  {
    hide Wrap;
    var n := |eligible|;
    var c := Wrap(cursor, n);
    d := if c <= k then k - c else k - c + n;
    PlaceIs(cursor, d, n);
    PlaceIs(cursor, d + 1, n);
    WrapSum(cursor, d, n);
    WrapNext(k, n);
    WrapSmall(k, n);
    WrapSum(cursor, d + 1, n);
    forall j: nat | j < d
      ensures !eligible[Place(cursor, j, n)]
    {
      PlaceIs(cursor, j, n);
      WrapSum(cursor, j, n);
    }
  }

  lemma PlaceIs(start: nat, d: nat, n: nat)
    requires n > 0
    ensures Place(start, d, n) == Wrap(start + d, n)
  {
  }

  function CursorAt(n: nat, start: nat, picks: seq<nat>, j: nat): nat
    requires n > 0 && j <= |picks|
  {
    if j == 0 then start else Wrap(picks[j - 1] + 1, n)
  }

  /** A run of choices while the eligible set stays as it is. */
  ghost predicate Selections(eligible: seq<bool>, start: nat, picks: seq<nat>) {
    |eligible| > 0 &&
    forall j :: 0 <= j < |picks| ==> Chosen(eligible, CursorAt(|eligible|, start, picks, j), picks[j])
  }

  /** The number of eligible indices below k. */
  ghost function Rank(eligible: seq<bool>, k: nat): (r: nat)
    requires k <= |eligible|
    ensures r <= k
  {
    if k == 0 then 0 else Rank(eligible, k - 1) + if eligible[k - 1] then 1 else 0
  }

  ghost function Total(eligible: seq<bool>): nat { Rank(eligible, |eligible|) }

  lemma {:induction false} RankGrows(eligible: seq<bool>, a: nat, b: nat)
    requires a <= b <= |eligible|
    ensures Rank(eligible, a) <= Rank(eligible, b)
    ensures a < b && eligible[a] ==> Rank(eligible, a) < Rank(eligible, b)
    ensures NoneIn(eligible, a, b) ==> Rank(eligible, a) == Rank(eligible, b)
    decreases b - a
  {
    if a < b {
      RankGrows(eligible, a, b - 1);
    }
  }

  /** Eligible indices and ranks determine each other. */
  lemma RankInjective(eligible: seq<bool>, a: nat, b: nat)
    requires a < |eligible| && b < |eligible| && eligible[a] && eligible[b]
    requires Rank(eligible, a) == Rank(eligible, b)
    ensures a == b
  {
    if a < b {
      RankGrows(eligible, a, b);
    } else {
      RankGrows(eligible, b, a);
    }
  }

  /** The rank whose turn it is at a cursor. */
  ghost function Turn(eligible: seq<bool>, cursor: nat): nat
    requires Total(eligible) > 0
  {
    Wrap(Rank(eligible, Wrap(cursor, |eligible|)), Total(eligible))
  }

  lemma TotalPositive(eligible: seq<bool>, k: nat)
    requires k < |eligible| && eligible[k]
    ensures Rank(eligible, k) < Total(eligible)
  {
    RankGrows(eligible, k, |eligible|);
  }

  lemma ChosenTurn(eligible: seq<bool>, cursor: nat, k: nat)
    requires Chosen(eligible, cursor, k)
    ensures Total(eligible) > 0
    ensures Rank(eligible, k) == Turn(eligible, cursor)
    ensures Turn(eligible, Wrap(k + 1, |eligible|)) == Wrap(Turn(eligible, cursor) + 1, Total(eligible))
  {
    hide Wrap;
    var n, c, total := |eligible|, Wrap(cursor, |eligible|), Total(eligible);
    TotalPositive(eligible, k);
    if c <= k {
      RankGrows(eligible, c, k);
    } else {
      RankGrows(eligible, c, n);
      RankGrows(eligible, 0, k);
    }
    assert Rank(eligible, k + 1) == Rank(eligible, k) + 1;
    RankGrows(eligible, k + 1, n);
    WrapSmall(Rank(eligible, k), total);
    WrapSmall(0, total);
    WrapNext(total - 1, total);
    WrapSmall(total - 1, total);
    WrapNext(k, n);
    WrapSmall(k, n);
    WrapSmall(Wrap(k + 1, n), n);
  }

  /** The turns go round: pick j falls to rank s + j, counted round the eligible nodes. */
  lemma {:induction false} TurnsGoRound(eligible: seq<bool>, start: nat, picks: seq<nat>, j: nat)
    requires Selections(eligible, start, picks) && Total(eligible) > 0 && j <= |picks|
    ensures Turn(eligible, CursorAt(|eligible|, start, picks, j)) == Wrap(Turn(eligible, start) + j, Total(eligible))
    ensures j < |picks| ==> Rank(eligible, picks[j]) == Wrap(Turn(eligible, start) + j, Total(eligible))
    decreases j
  {
    hide Wrap, Chosen, Turn, Rank, Total;
    var total := Total(eligible);
    if j > 0 {
      TurnsGoRound(eligible, start, picks, j - 1);
      ChosenTurn(eligible, CursorAt(|eligible|, start, picks, j - 1), picks[j - 1]);
      WrapNext(Turn(eligible, start) + j - 1, total);
      WrapNext(Wrap(Turn(eligible, start) + j - 1, total), total);
      WrapSmall(Wrap(Turn(eligible, start) + j - 1, total), total);
    } else {
      TurnInRange(eligible, start);
      WrapSmall(Turn(eligible, start), total);
    }
    if j < |picks| {
      ChosenTurn(eligible, CursorAt(|eligible|, start, picks, j), picks[j]);
    }
  }

  lemma TurnInRange(eligible: seq<bool>, cursor: nat)
    requires Total(eligible) > 0
    ensures Turn(eligible, cursor) < Total(eligible)
  {
  }

  lemma ResidueReached(x: nat, r: nat, m: nat) returns (a: nat)
    requires r < m
    ensures a < m && Wrap(x + a, m) == r
  {
    var t := Wrap(x, m);
    a := if t <= r then r - t else r - t + m;
    WrapSum(x, a, m);
  }

  lemma PicksApart(eligible: seq<bool>, start: nat, picks: seq<nat>, a: nat, b: nat)
    requires Selections(eligible, start, picks)
    requires 0 < Total(eligible) && a < b < |picks| && b < a + Total(eligible)
    ensures picks[a] != picks[b]
  {
    hide Wrap, Turn, Rank, Total, Selections;
    TurnsGoRound(eligible, start, picks, a);
    TurnsGoRound(eligible, start, picks, b);
    if picks[a] == picks[b] {
      WrapEqual(Turn(eligible, start) + a, Turn(eligible, start) + b, Total(eligible));
    }
  }

  lemma PickReaches(eligible: seq<bool>, start: nat, picks: seq<nat>, i: nat, k: nat) returns (a: nat)
    requires Selections(eligible, start, picks)
    requires 0 < Total(eligible) && i + Total(eligible) <= |picks|
    requires k < |eligible| && eligible[k]
    ensures i <= a < i + Total(eligible) && picks[a] == k
  {
    hide Wrap, Turn, Rank, Total, Selections;
    TotalPositive(eligible, k);
    var t := ResidueReached(Turn(eligible, start) + i, Rank(eligible, k), Total(eligible));
    a := i + t;
    TurnsGoRound(eligible, start, picks, a);
    PickEligible(eligible, start, picks, a);
    RankInjective(eligible, picks[a], k);
  }

  lemma PickEligible(eligible: seq<bool>, start: nat, picks: seq<nat>, j: nat)
    requires Selections(eligible, start, picks) && j < |picks|
    ensures picks[j] < |eligible| && eligible[picks[j]]
  {
    assert Chosen(eligible, CursorAt(|eligible|, start, picks, j), picks[j]);
  }

  /** As many consecutive selections as there are eligible nodes are distinct and reach every
      eligible node and no other, wherever the window begins. */
  lemma WindowsAreFair(eligible: seq<bool>, start: nat, picks: seq<nat>, i: nat)
    requires Selections(eligible, start, picks)
    requires 0 < Total(eligible) && i + Total(eligible) <= |picks|
    ensures forall a, b :: i <= a < b < i + Total(eligible) ==> picks[a] != picks[b]
    ensures forall k :: k in picks[i..i + Total(eligible)] <==> 0 <= k < |eligible| && eligible[k]
  {
    hide Selections, Total;
    var total := Total(eligible);
    forall a, b | i <= a < b < i + total
      ensures picks[a] != picks[b]
    {
      PicksApart(eligible, start, picks, a, b);
    }
    forall k | 0 <= k < |eligible| && eligible[k]
      ensures k in picks[i..i + total]
    {
      var a := PickReaches(eligible, start, picks, i, k);
      assert picks[i..i + total][a - i] == k;
    }
    forall a | i <= a < i + total
      ensures picks[a] < |eligible| && eligible[picks[a]]
    {
      PickEligible(eligible, start, picks, a);
    }
  }

  /** How many numbers below x leave remainder r. */
  function Below(x: nat, r: nat, m: nat): nat
    requires r < m
  {
    x / m + if r < Wrap(x, m) then 1 else 0
  }

  lemma BelowStep(x: nat, r: nat, m: nat)
    requires r < m
    ensures Below(x + 1, r, m) == Below(x, r, m) + if Wrap(x, m) == r then 1 else 0
  {
    hide Wrap;
    WrapNext(x, m);
  }

  lemma {:induction false} PickCount(eligible: seq<bool>, start: nat, picks: seq<nat>, k: nat, j: nat)
    requires Selections(eligible, start, picks) && j <= |picks|
    requires k < |eligible| && eligible[k] && Rank(eligible, k) < Total(eligible)
    ensures multiset(picks[..j])[k]
            == Below(Turn(eligible, start) + j, Rank(eligible, k), Total(eligible))
                - Below(Turn(eligible, start), Rank(eligible, k), Total(eligible))
    decreases j
  {
    hide Wrap, Turn, Below, Rank, Total, Selections;
    if j > 0 {
      PickCount(eligible, start, picks, k, j - 1);
      assert picks[..j] == picks[..j - 1] + [picks[j - 1]];
      TurnsGoRound(eligible, start, picks, j - 1);
      BelowStep(Turn(eligible, start) + (j - 1), Rank(eligible, k), Total(eligible));
      PickEligible(eligible, start, picks, j - 1);
      if picks[j - 1] != k {
        if Rank(eligible, picks[j - 1]) == Rank(eligible, k) {
          RankInjective(eligible, picks[j - 1], k);
        }
      }
    }
  }

  /** Over any run, no eligible node is selected more than once more than another. */
  lemma CountsDifferByAtMostOne(eligible: seq<bool>, start: nat, picks: seq<nat>, a: nat, b: nat)
    requires Selections(eligible, start, picks)
    requires a < |eligible| && eligible[a] && b < |eligible| && eligible[b]
    ensures multiset(picks)[a] <= multiset(picks)[b] + 1
  {
    hide Wrap, Turn, Rank, Selections;
    TotalPositive(eligible, a);
    TotalPositive(eligible, b);
    PickCount(eligible, start, picks, a, |picks|);
    PickCount(eligible, start, picks, b, |picks|);
    assert picks[..|picks|] == picks;
    var s, total := Turn(eligible, start), Total(eligible);
    TurnInRange(eligible, start);
    WrapSmall(s, total);
  }

  // ---- the eligible set may change while the choices are made

  ghost predicate ChangingSelections(flags: seq<seq<bool>>, n: nat, start: nat, picks: seq<nat>) {
    && n > 0 && |flags| == |picks|
    && forall j :: 0 <= j < |picks| ==> |flags[j]| == n && Chosen(flags[j], CursorAt(n, start, picks, j), picks[j])
  }

  /** How far x is ahead of the cursor. */
  function Ahead(n: nat, cursor: nat, x: nat): nat
    requires x < n
  {
    var c := Wrap(cursor, n);
    if c <= x then x - c else x - c + n
  }

  lemma NotChosenComesCloser(eligible: seq<bool>, cursor: nat, k: nat, x: nat)
    requires Chosen(eligible, cursor, k)
    requires x < |eligible| && eligible[x] && x != k
    ensures Ahead(|eligible|, Wrap(k + 1, |eligible|), x) < Ahead(|eligible|, cursor, x)
  {
    hide Wrap;
    var n := |eligible|;
    WrapNext(k, n);
    WrapSmall(k, n);
    WrapSmall(Wrap(k + 1, n), n);
  }

  lemma {:induction false} StillAhead(flags: seq<seq<bool>>, n: nat, start: nat, picks: seq<nat>, x: nat, j: nat)
    requires ChangingSelections(flags, n, start, picks) && j <= |picks|
    requires x < n && forall i :: 0 <= i < |flags| ==> flags[i][x]
    requires x !in picks[..j]
    ensures Ahead(n, CursorAt(n, start, picks, j), x) + j <= Ahead(n, start, x)
    decreases j
  {
    hide Chosen, Ahead, Wrap;
    if j > 0 {
      assert picks[..j] == picks[..j - 1] + [picks[j - 1]];
      StillAhead(flags, n, start, picks, x, j - 1);
      NotChosenComesCloser(flags[j - 1], CursorAt(n, start, picks, j - 1), picks[j - 1], x);
    }
  }

  /** No starvation: a node that stays eligible is selected within as many selections as there are
      nodes, however the other nodes' loads and reachability change in between. */
  lemma NoStarvation(flags: seq<seq<bool>>, n: nat, start: nat, picks: seq<nat>, x: nat)
    requires ChangingSelections(flags, n, start, picks)
    requires x < n && forall i :: 0 <= i < |flags| ==> flags[i][x]
    requires |picks| > Ahead(n, start, x)
    ensures x in picks[..Ahead(n, start, x) + 1]
    ensures Ahead(n, start, x) < n
  {
    var j := Ahead(n, start, x) + 1;
    if x !in picks[..j] {
      StillAhead(flags, n, start, picks, x, j);
      assert false;
    }
  }
}

/** include/task_engine/distributed_executor.hpp: the node table and `select_node`. */
module DistributedExecutors {
  import opened Arithmetic
  import opened RoundRobin

  const SIZE_MAX := 0xFFFF_FFFF_FFFF_FFFF
  type SizeT = x: int | 0 <= x <= SIZE_MAX witness 0

  datatype Policy = LocalFirst | LeastLoaded | RoundRobin | Broadcast

  /** The snapshot a node reports. */
  datatype Snapshot = Snapshot(
    submitted: SizeT, completed: SizeT, failed: SizeT, retried: SizeT, cancelled: SizeT,
    totalExecutionTime: SizeT, maxExecutionTime: SizeT, minExecutionTime: SizeT, totalQueueWaitTime: SizeT,
    inflight: SizeT, peakInflight: SizeT)

  const EMPTY_SNAPSHOT := Snapshot(0, 0, 0, 0, 0, 0, 0, SIZE_MAX, 0, 0, 0)

  class NodeInfo {
    const address: string
    const port: nat
    const capacity: SizeT
    var currentLoad: SizeT
    var reachable: bool
    var lastHeartbeat: int
    var metrics: Snapshot

    constructor (address: string, port: nat, capacity: SizeT, now: int)
      ensures this.address == address && this.port == port && this.capacity == capacity
      ensures currentLoad == 0 && reachable && lastHeartbeat == now && metrics == EMPTY_SNAPSHOT
    {
      this.address, this.port, this.capacity := address, port, capacity;
      currentLoad, reachable, lastHeartbeat, metrics := 0, true, now, EMPTY_SNAPSHOT;
    }

    predicate At(address: string, port: nat) {
      this.address == address && this.port == port
    }

    predicate Eligible()
      reads this
    {
      reachable && currentLoad < capacity
    }
  }

  /** The nodes that `remove_node` leaves, in order. */
  function Remaining(nodes: seq<NodeInfo>, address: string, port: nat): seq<NodeInfo> {
    if nodes == [] then [] else
      (if nodes[0].At(address, port) then [] else [nodes[0]]) + Remaining(nodes[1..], address, port)
  }

  lemma {:induction false} RemainingSnoc(nodes: seq<NodeInfo>, node: NodeInfo, address: string, port: nat)
    ensures Remaining(nodes + [node], address, port)
            == Remaining(nodes, address, port) + if node.At(address, port) then [] else [node]
  {
    if nodes == [] {
      assert nodes + [node] == [node];
      assert Remaining([], address, port) == [];
    } else {
      var all := nodes + [node];
      RemainingSnoc(nodes[1..], node, address, port);
      assert all[0] == nodes[0] && all[1..] == nodes[1..] + [node];
      var head := if nodes[0].At(address, port) then [] else [nodes[0]];
      var last := if node.At(address, port) then [] else [node];
      assert head + (Remaining(nodes[1..], address, port) + last) == (head + Remaining(nodes[1..], address, port))
          + last;
    }
  }

  /** Every entry for the address goes, every other entry stays exactly as often as before. */
  lemma {:induction false} RemainingContents(nodes: seq<NodeInfo>, address: string, port: nat, node: NodeInfo)
    ensures multiset(Remaining(nodes, address, port))[node] == if node.At(address, port) then 0
            else multiset(nodes)[node]
  {
    if nodes != [] {
      assert nodes == [nodes[0]] + nodes[1..];
      RemainingContents(nodes[1..], address, port, node);
    }
  }

  /** What stays keeps its order: entry k of the rest was entry at[k] of the table. */
  lemma {:induction false} RemainingInOrder(nodes: seq<NodeInfo>, address: string, port: nat) returns (at: seq<nat>)
    ensures |at| == |Remaining(nodes, address, port)|
    ensures forall k :: 0 <= k < |at| ==> at[k] < |nodes| && Remaining(nodes, address, port)[k] == nodes[at[k]]
    ensures forall j, k :: 0 <= j < k < |at| ==> at[j] < at[k]
  {
    if nodes == [] {
      at := [];
    } else {
      var rest := RemainingInOrder(nodes[1..], address, port);
      var shifted := seq(|rest|, k requires 0 <= k < |rest| => rest[k] + 1);
      at := (if nodes[0].At(address, port) then [] else [0]) + shifted;
    }
  }

  class DistributedExecutor {
    var policy: Policy
    var cursor: nat
    var nodes: seq<NodeInfo>

    /** The vector owns its nodes: no two entries are the same object. */
    ghost predicate Valid()
      reads this
    {
      forall i, j :: 0 <= i < j < |nodes| ==> nodes[i] != nodes[j]
    }

    ghost function Flags(): (f: seq<bool>)
      reads this, nodes
      ensures |f| == |nodes| && forall i :: 0 <= i < |nodes| ==> f[i] == nodes[i].Eligible()
    {
      seq(|nodes|, i requires 0 <= i < |nodes| reads this, nodes => nodes[i].Eligible())
    }

    /** The entry that `find_node_unlocked` and the update loops act on. */
    ghost predicate First(i: nat, address: string, port: nat)
      reads this
    {
      i < |nodes| && nodes[i].At(address, port) && forall j :: 0 <= j < i ==> !nodes[j].At(address, port)
    }

    constructor ()
      ensures Valid() && nodes == [] && cursor == 0 && policy == LocalFirst
    {
      policy, cursor, nodes := LocalFirst, 0, [];
    }

    method AddNode(address: string, port: nat, capacity: SizeT, now: int)
      requires Valid()
      modifies this`nodes
      ensures Valid()
      ensures |nodes| == |old(nodes)| + 1 && nodes[..|old(nodes)|] == old(nodes)
      ensures var node := nodes[|nodes| - 1];
              fresh(node) && node.At(address, port) && node.capacity == capacity && node.currentLoad == 0
                  && node.reachable
              && node.lastHeartbeat == now && node.metrics == EMPTY_SNAPSHOT
    {
      var node := new NodeInfo(address, port, capacity, now);
      nodes := nodes + [node];
    }

    /** The cursor stays where it was, possibly beyond the end. */
    method RemoveNode(address: string, port: nat)
      requires Valid()
      modifies this`nodes
      ensures Valid()
      ensures nodes == Remaining(old(nodes), address, port)
    {
      var all, kept: seq<NodeInfo> := nodes, [];
      for i := 0 to |all|
        invariant kept == Remaining(all[..i], address, port)
        invariant forall k :: 0 <= k < |kept| ==> kept[k] in all[..i]
        invariant forall j, k :: 0 <= j < k < |kept| ==> kept[j] != kept[k]
      {
        RemainingSnoc(all[..i], all[i], address, port);
        assert all[..i + 1] == all[..i] + [all[i]];
        if !all[i].At(address, port) {
          kept := kept + [all[i]];
        }
      }
      assert all[..|all|] == all;
      nodes := kept;
    }

    method UpdateNodeMetrics(address: string, port: nat, metrics: Snapshot, now: int)
      requires Valid()
      modifies nodes`currentLoad, nodes`metrics, nodes`lastHeartbeat
      ensures forall i :: 0 <= i < |nodes| && First(i, address, port) ==>
                nodes[i].metrics == metrics && nodes[i].currentLoad == metrics.inflight && nodes[i].lastHeartbeat == now
      ensures forall i :: 0 <= i < |nodes| && !First(i, address, port) ==> unchanged(nodes[i])
    {
      for i := 0 to |nodes|
        invariant forall j :: 0 <= j < i ==> !nodes[j].At(address, port)
        invariant forall j :: 0 <= j < |nodes| ==> unchanged(nodes[j])
      {
        var node := nodes[i];
        if node.At(address, port) {
          node.metrics := metrics;
          node.currentLoad := metrics.inflight;
          node.lastHeartbeat := now;
          return;
        }
      }
    }

    method MarkNodeUnreachable(address: string, port: nat)
      requires Valid()
      modifies nodes`reachable
      ensures forall i :: 0 <= i < |nodes| ==>
                nodes[i].reachable == (old(nodes[i].reachable) && !First(i, address, port))
    {
      for i := 0 to |nodes|
        invariant forall j :: 0 <= j < i ==> !nodes[j].At(address, port)
        invariant forall j :: 0 <= j < |nodes| ==> nodes[j].reachable == old(nodes[j].reachable)
      {
        if nodes[i].At(address, port) {
          nodes[i].reachable := false;
          return;
        }
      }
    }

    /** The RoundRobin branch: the next eligible node after the cursor, which then points past it. */
    method SelectRoundRobin() returns (r: NodeInfo?)
      modifies this`cursor
      ensures r == null <==> forall i :: 0 <= i < |nodes| ==> !nodes[i].Eligible()
      ensures r == null ==> cursor == old(cursor)
      ensures r != null ==>
                r.Eligible() && exists k: nat ::
                  Chosen(Flags(), old(cursor), k) && r == nodes[k] && cursor == Wrap(k + 1, |nodes|)
    {
      hide Wrap;
      ghost var flags, n := Flags(), |nodes|;
      ghost var c := if n == 0 then 0 else Wrap(cursor, n);
      r := null;
      for i := 0 to |nodes|
        invariant cursor == old(cursor)
        invariant if c + i <= n then NoneIn(flags, c, c + i) else NoneIn(flags, c, n) && NoneIn(flags, 0, c + i - n)
      {
        var index := Wrap(cursor + i, |nodes|);
        WrapSum(cursor, i, n);
        if nodes[index].Eligible() {
          r := nodes[index];
          cursor := Wrap(index + 1, |nodes|);
          assert Chosen(flags, old(cursor), index);
          return;
        }
      }
      forall i | 0 <= i < n
        ensures !nodes[i].Eligible()
      {
        assert !flags[i];
      }
    }

    ghost predicate IsLeastLoaded(k: nat)
      requires k < |nodes|
      reads this, nodes
    {
      forall j :: 0 <= j < |nodes| && nodes[j].Eligible() ==>
                    nodes[k].currentLoad <= nodes[j].currentLoad
                        && (j < k ==> nodes[k].currentLoad < nodes[j].currentLoad)
    }

    /** The LeastLoaded branch: the first eligible node of the smallest load. */
    method SelectLeastLoaded() returns (r: NodeInfo?)
      ensures r == null <==> forall i :: 0 <= i < |nodes| ==> !nodes[i].Eligible()
      ensures r != null ==> r.Eligible() && exists k :: 0 <= k < |nodes| && r == nodes[k] && IsLeastLoaded(k)
    {
      var minLoad := SIZE_MAX;
      ghost var best := 0;
      r := null;
      for i := 0 to |nodes|
        invariant r == null ==> minLoad == SIZE_MAX
        invariant r != null ==>
                    best < i && r == nodes[best] && nodes[best].Eligible() && minLoad == nodes[best].currentLoad
        invariant forall j :: 0 <= j < i && nodes[j].Eligible() ==>
                    r != null && minLoad <= nodes[j].currentLoad && (j < best ==> minLoad < nodes[j].currentLoad)
      {
        var node := nodes[i];
        if node.reachable {
          var load := node.currentLoad;
          if load < minLoad && load < node.capacity {
            minLoad := load;
            r := node;
            best := i;
          }
        }
      }
    }

    /** The LocalFirst branch, which looks at reachability only. */
    method SelectFirstReachable() returns (r: NodeInfo?)
      ensures r == null <==> forall i :: 0 <= i < |nodes| ==> !nodes[i].reachable
      ensures r != null ==>
              r.reachable && exists k ::
                0 <= k < |nodes| && r == nodes[k] && forall j :: 0 <= j < k ==> !nodes[j].reachable
    {
      for i := 0 to |nodes|
        invariant forall j :: 0 <= j < i ==> !nodes[j].reachable
      {
        if nodes[i].reachable {
          return nodes[i];
        }
      }
      return null;
    }

    method SelectNode() returns (r: NodeInfo?)
      modifies this`cursor
      ensures policy.Broadcast? ==> r == null
      ensures policy.LocalFirst? ==> (r == null <==> forall i :: 0 <= i < |nodes| ==> !nodes[i].reachable)
      ensures policy.LocalFirst? && r != null ==>
                exists k :: 0 <= k < |nodes| && r == nodes[k] && forall j :: 0 <= j < k ==> !nodes[j].reachable
      ensures policy.RoundRobin? || policy.LeastLoaded? ==>
              (r == null <==> forall i :: 0 <= i < |nodes| ==> !nodes[i].Eligible())
      ensures policy.LeastLoaded? && r != null ==> exists k :: 0 <= k < |nodes| && r == nodes[k] && IsLeastLoaded(k)
      ensures policy.RoundRobin? && r != null ==>
                exists k: nat :: Chosen(Flags(), old(cursor), k) && r == nodes[k] && cursor == Wrap(k + 1, |nodes|)
      ensures policy.RoundRobin? || policy.LeastLoaded? ==>
              (r == null <==> forall node :: node in nodes ==> !node.reachable || node.currentLoad >= node.capacity)
      ensures (policy.RoundRobin? || policy.LeastLoaded?) && r != null ==> r.reachable && r.currentLoad < r.capacity
      ensures r != null ==> r in nodes && r.reachable
      ensures !policy.RoundRobin? || r == null ==> cursor == old(cursor)
    {
      if nodes == [] {
        return null;
      }
      match policy {
        case LeastLoaded => r := SelectLeastLoaded();
        case RoundRobin => r := SelectRoundRobin();
        case LocalFirst => r := SelectFirstReachable();
        case Broadcast => r := null;
      }
    }
  }
}
