/** include/task_engine/thread_pool.hpp:124-143 under include/task_engine/task_executor.hpp: how many
    unfinished tasks of one priority it takes before a thread waits for room. */
module LifecycleCrowd {
  import opened Options
  import opened Sequences
  import opened Tasks
  import opened PriorityLevels
  import opened Lifecycle
  import opened LifecyclePool
  import opened LifecycleJam
  import Pool = PoolModel

  /** A full local queue and a full global one. */
  const QUEUED := 511 + 2047

  /** And the task that finds no room. */
  const CROWD := QUEUED + 1

  // ---- the queues hold what their priority says

  ghost predicate LevelsSorted(levels: Levels, priority: map<TaskId, TaskPriority>) {
    forall i, t :: 0 <= i < 4 && t in levels[i] ==> t in priority && PriorityIndex(priority[t]) == i
  }

  ghost predicate Sorted(pool: Pool.Pool, priority: map<TaskId, TaskPriority>) {
    && LevelsSorted(pool.global, priority)
    && forall w :: 0 <= w < |pool.locals| ==> LevelsSorted(pool.locals[w], priority)
  }

  ghost predicate Extends(priority: map<TaskId, TaskPriority>, priority': map<TaskId, TaskPriority>) {
    forall t :: t in priority ==> t in priority' && priority'[t] == priority[t]
  }

  lemma SortedExtends(pool: Pool.Pool, priority: map<TaskId, TaskPriority>, priority': map<TaskId, TaskPriority>)
    requires Sorted(pool, priority) && Extends(priority, priority')
    ensures Sorted(pool, priority')
  {
  }

  lemma PutSorted(levels: Levels, priority: map<TaskId, TaskPriority>, t: TaskId)
    requires LevelsSorted(levels, priority) && t in priority
    ensures LevelsSorted(Put(levels, priority[t], t), priority)
  {
  }

  lemma OfferedSorted(pool: Pool.Pool, priority: map<TaskId, TaskPriority>, t: TaskId)
    requires |pool.locals| > 0 && Sorted(pool, priority) && t in priority
    ensures Sorted(Offered(pool, t, priority[t]), priority) && Sorted(Entered(pool, t, priority[t]), priority)
  {
    hide LevelsSorted, Put;
    PutSorted(pool.global, priority, t);
    PutSorted(pool.locals[Pool.Target(pool)], priority, t);
  }

  lemma LeftSorted(levels: Levels, priority: map<TaskId, TaskPriority>)
    requires LevelsSorted(levels, priority)
    ensures LevelsSorted(Left(levels), priority)
  {
  }

  lemma SearchedSorted(pool: Pool.Pool, priority: map<TaskId, TaskPriority>, w: nat)
    requires Sorted(pool, priority) && w < |pool.locals|
    ensures Sorted(Pool.Searched(pool, w), priority)
  {
    hide LevelsSorted, Left, Taken;
    LeftSorted(pool.global, priority);
    forall v | 0 <= v < |pool.locals|
      ensures LevelsSorted(Left(pool.locals[v]), priority)
    {
      LeftSorted(pool.locals[v], priority);
    }
  }

  ghost predicate StaysSorted(x: Executor, x': Executor) {
    Sorted(x'.pool, x'.priority) && Extends(x.priority, x'.priority)
  }

  lemma PoolStaysSorted(x: Executor, x': Executor, t: TaskId)
    requires |x.pool.locals| > 0 && Sorted(x.pool, x.priority) && Extends(x.priority, x'.priority) && t in x'.priority
    requires x'.pool == x.pool || x'.pool == Offered(x.pool, t, x'.priority[t])
    ensures StaysSorted(x, x')
  {
    hide Offered, Sorted;
    SortedExtends(x.pool, x.priority, x'.priority);
    OfferedSorted(x.pool, x'.priority, t);
  }

  lemma SubmissionSorts(x: Executor, ds: seq<TaskId>, maxRetries: nat, p: TaskPriority)
    requires PoolInv(x) && Sorted(x.pool, x.priority)
    ensures StaysSorted(x, DoSubmission(x, ds, maxRetries, p))
  {
    hide PoolInv, Sorted, StaysSorted, Apply, DoSubmission, Offered, Extends;
    NewcomerHasNone(x);
    SubmissionShape(x, ds, maxRetries, p);
    ExtendsByOne(x.priority, x.life.nextId, p);
    var x' := DoSubmission(x, ds, maxRetries, p);
    assert x'.priority[x.life.nextId] == p;
    PoolStaysSorted(x, x', x.life.nextId);
  }

  lemma ExtendsByOne(priority: map<TaskId, TaskPriority>, t: TaskId, p: TaskPriority)
    requires t !in priority
    ensures Extends(priority, priority[t := p])
  {
  }

  lemma SchedulingSorts(x: Executor, t: TaskId)
    requires |x.pool.locals| > 0 && Enabled(x.life, Tick(t)) && t in x.priority && Sorted(x.pool, x.priority)
    ensures StaysSorted(x, DoScheduling(x, t))
  {
    hide Sorted, StaysSorted, Apply, Offered, HasRoom;
    PoolStaysSorted(x, DoScheduling(x, t), t);
  }

  lemma SettlingSorts(x: Executor, t: TaskId)
    requires |x.pool.locals| > 0 && Enabled(x.life, Settle(t)) && t in x.priority && Sorted(x.pool, x.priority)
    ensures StaysSorted(x, DoSettling(x, t))
  {
    hide Sorted, StaysSorted, Apply, Offered, DoSettling;
    SettlingShape(x, t);
    PoolStaysSorted(x, DoSettling(x, t), t);
  }

  lemma ActionSorts(x: Executor, a: Action)
    requires PoolInv(x) && CanDo(x, a) && Fits(x, a) && Sorted(x.pool, x.priority)
    ensures StaysSorted(x, Do(x, a))
  {
    NonemptyPool(x);
    hide Entered, Sorted, PoolInv, Apply, Pool.Found, Pool.Searched;
    match a
    case Submission(ds, maxRetries, p) => SubmissionSorts(x, ds, maxRetries, p);
    case Scheduling(t) => SchedulingSorts(x, t);
    case Searching(w) => SearchedSorted(x.pool, x.priority, w);
    case Returning(t, ok) =>
    case Settling(t) => SettlingSorts(x, t);
    case Entering(t) => OfferedSorted(x.pool, x.priority, t);
  }

  lemma NewcomerHasNone(x: Executor)
    requires PoolInv(x)
    ensures x.life.nextId !in x.priority && |x.pool.locals| > 0
  {
    Unused(x.life);
  }

  // ---- counting

  lemma OnceIsDistinct(s: seq<TaskId>)
    requires forall u :: multiset(s)[u] <= 1
    ensures NoDuplicates(s)
  {
    forall a, b | 0 <= a < b < |s|
      ensures s[a] != s[b]
    {
      if s[a] == s[b] {
        TwiceCounts(s, a, b);
      }
    }
  }

  lemma TwiceCounts(s: seq<TaskId>, a: nat, b: nat)
    requires a < b < |s| && s[a] == s[b]
    ensures multiset(s)[s[a]] >= 2
  {
    assert s == s[..b] + [s[b]] + s[b + 1..];
    assert s[a] in s[..b];
    assert multiset(s)[s[b]] >= multiset(s[..b])[s[b]] + 1;
  }

  lemma {:induction false} LocalsBagHas(locals: seq<Levels>, w: nat)
    requires w < |locals|
    ensures Bag(locals[w]) <= Pool.LocalsBag(locals)
  {
    hide Bag;
    var n := |locals| - 1;
    if w < n {
      LocalsBagHas(locals[..n], w);
    }
  }

  lemma LevelInBag(levels: Levels, i: nat)
    requires i < 4
    ensures multiset(levels[i]) <= Bag(levels)
  {
  }

  lemma TwoLevelsInBag(pool: Pool.Pool, w: nat, i: nat)
    requires w < |pool.locals| && i < 4
    ensures multiset(pool.locals[w][i]) + multiset(pool.global[i]) <= Pool.PoolBag(pool)
  {
    LocalsBagHas(pool.locals, w);
    LevelInBag(pool.locals[w], i);
    LevelInBag(pool.global, i);
    hide Bag, Pool.LocalsBag;
  }

  /** Where there is no room for a priority, 511 + 2047 of its tasks are in the queues; any further ones
      come on top. */
  lemma NoRoomMeansMany(pool: Pool.Pool, priority: map<TaskId, TaskPriority>, p: TaskPriority, outside: set<TaskId>,
                        crowd: set<TaskId>)
    requires |pool.locals| > 0 && Sorted(pool, priority) && !HasRoom(pool, p)
    requires forall u :: Pool.PoolBag(pool)[u] <= 1
    requires outside <= crowd && forall u :: u in outside ==> u !in Pool.PoolBag(pool)
    requires forall u :: u in Pool.PoolBag(pool) && u in priority && priority[u] == p ==> u in crowd
    ensures |crowd| >= QUEUED + |outside|
  {
    var i, w := PriorityIndex(p), Pool.Target(pool);
    var a, b := pool.locals[w][i], pool.global[i];
    TwoLevelsInBag(pool, w, i);
    OfPriority(pool.locals[w], priority, p);
    OfPriority(pool.global, priority, p);
    hide Pool.PoolBag, Sorted, LevelsSorted, HasRoom;
    assert |a| + |b| >= QUEUED by {
      FullQueues(pool, p);
    }
    Crowded(a, b, outside, Pool.PoolBag(pool), crowd);
  }

  lemma OfPriority(levels: Levels, priority: map<TaskId, TaskPriority>, p: TaskPriority)
    requires LevelsSorted(levels, priority)
    ensures forall u :: u in levels[PriorityIndex(p)] ==> u in priority && priority[u] == p
  {
    forall u | u in levels[PriorityIndex(p)]
      ensures u in priority && priority[u] == p
    {
      PriorityIndexInjective(priority[u], p);
    }
  }

  lemma FullQueues(pool: Pool.Pool, p: TaskPriority)
    requires |pool.locals| > 0 && !HasRoom(pool, p)
    ensures |pool.locals[Pool.Target(pool)][PriorityIndex(p)]| + |pool.global[PriorityIndex(p)]| >= QUEUED
  {
  }

  lemma Crowded(a: seq<TaskId>, b: seq<TaskId>, outside: set<TaskId>, bag: multiset<TaskId>, crowd: set<TaskId>)
    requires multiset(a) + multiset(b) <= bag && (forall u :: bag[u] <= 1)
    requires outside <= crowd && forall u :: u in outside ==> u !in bag
    requires forall u :: u in a || u in b ==> u in crowd
    ensures |a| + |b| + |outside| <= |crowd|
  {
    var s := a + b;
    assert multiset(s) == multiset(a) + multiset(b);
    forall u
      ensures multiset(s)[u] <= 1
    {
      assert (multiset(a) + multiset(b))[u] <= bag[u];
    }
    OnceIsDistinct(s);
    forall u | u in s
      ensures u in crowd - outside
    {
      assert multiset(s)[u] > 0;
    }
    NoDuplicatesBound(s, crowd - outside);
  }

  ghost function Unfinished(x: Executor, p: TaskPriority): set<TaskId> {
    set t | t in x.life.graph && t !in x.life.terminal && t in x.priority && x.priority[t] == p
  }

  /** Of no priority are there as many unfinished tasks as that. */
  ghost predicate Below(x: Executor, bound: nat) {
    forall p :: |Unfinished(x, p)| < bound
  }

  ghost predicate NobodyWaits(x: Executor) {
    x.blocked == {} && x.waiting == {} && x.scheduler == None
  }

  lemma QueuedIsUnfinished(x: Executor, u: TaskId)
    requires PoolInv(x) && u in Pool.PoolBag(x.pool)
    ensures u in x.life.graph && u !in x.life.terminal && Pool.PoolBag(x.pool)[u] <= 1
  {
    OncePlaced(x, u);
    InvAt(x.life, u);
  }

  /** If a step finds no room for p, the tasks of that priority in the queues are a crowd after it,
      and so are those outside. */
  lemma NoRoomIsACrowd(x: Executor, x': Executor, p: TaskPriority, outside: set<TaskId>)
    requires PoolInv(x) && Sorted(x.pool, x.priority) && !HasRoom(x.pool, p)
    requires x'.life.terminal == x.life.terminal && x.life.graph.Keys <= x'.life.graph.Keys
             && Extends(x.priority, x'.priority)
    requires outside <= Unfinished(x', p) && forall u :: u in outside ==> u !in Pool.PoolBag(x.pool)
    ensures |Unfinished(x', p)| >= QUEUED + |outside|
  {
    forall u
      ensures Pool.PoolBag(x.pool)[u] <= 1
      ensures u in Pool.PoolBag(x.pool) && u in x.priority && x.priority[u] == p ==> u in Unfinished(x', p)
    {
      if u in Pool.PoolBag(x.pool) {
        QueuedIsUnfinished(x, u);
      }
    }
    hide PoolInv, Sorted, HasRoom, Pool.PoolBag, Unfinished;
    NonemptyPool(x);
    NoRoomMeansMany(x.pool, x.priority, p, outside, Unfinished(x', p));
  }

  lemma OneIsTooMany(x: Executor, x': Executor, t: TaskId, p: TaskPriority)
    requires PoolInv(x) && Sorted(x.pool, x.priority) && !HasRoom(x.pool, p)
    requires t !in Pool.PoolBag(x.pool)
    requires x'.life.terminal == x.life.terminal && x.life.graph.Keys <= x'.life.graph.Keys
             && Extends(x.priority, x'.priority)
    requires t in x'.life.graph && t !in x'.life.terminal && t in x'.priority && x'.priority[t] == p
    ensures |Unfinished(x', p)| >= CROWD
  {
    hide PoolInv, Sorted, HasRoom, Pool.PoolBag;
    assert t in Unfinished(x', p);
    hide Unfinished;
    NoRoomIsACrowd(x, x', p, {t});
  }

  /** A submission, a scheduled task and a retry are tasks outside the queues when they are offered. */
  lemma OfferedIsOutside(x: Executor, t: TaskId)
    requires PoolInv(x) && (t == x.life.nextId
             || (t in x.life.graph && (Enabled(x.life, Tick(t)) || Enabled(x.life, Settle(t)))))
    ensures t !in Pool.PoolBag(x.pool) && t !in x.life.terminal
  {
    OncePlaced(x, t);
    if t == x.life.nextId {
      Unused(x.life);
    } else {
      InvAt(x.life, t);
    }
  }

  lemma SubmissionWaitsNot(x: Executor, ds: seq<TaskId>, maxRetries: nat, p: TaskPriority)
    requires PoolInv(x) && Sorted(x.pool, x.priority) && Below(DoSubmission(x, ds, maxRetries, p), CROWD)
    ensures HasRoom(x.pool, p)
  {
    var x' := DoSubmission(x, ds, maxRetries, p);
    OfferedIsOutside(x, x.life.nextId);
    SubmitMoves(x.life, ds, maxRetries);
    SubmissionSorts(x, ds, maxRetries, p);
    if !HasRoom(x.pool, p) {
      hide PoolInv, Sorted, Apply, Recorded, HasRoom, Offered, Unfinished, ReadyAtOnce;
      OneIsTooMany(x, x', x.life.nextId, p);
    }
  }

  lemma SchedulingWaitsNot(x: Executor, t: TaskId)
    requires PoolInv(x) && Sorted(x.pool, x.priority) && CanDo(x, Scheduling(t)) && t in x.priority
             && Below(DoScheduling(x, t), CROWD)
    ensures HasRoom(x.pool, x.priority[t])
  {
    OfferedIsOutside(x, t);
    if !HasRoom(x.pool, x.priority[t]) {
      hide PoolInv, Sorted, HasRoom, Offered, Unfinished;
      OneIsTooMany(x, DoScheduling(x, t), t, x.priority[t]);
    }
  }

  /** t joins the blocked ones of its priority. */
  ghost predicate Joins(x: Executor, x': Executor, t: TaskId) {
    && t in x.priority && x'.blocked == x.blocked + {t} && x'.priority == x.priority
    && x'.life.terminal == x.life.terminal && x'.life.graph.Keys == x.life.graph.Keys
    && t in x'.life.graph && t !in x'.life.terminal
  }

  lemma SettledJoins(x: Executor, t: TaskId)
    requires |x.pool.locals| > 0 && CanDo(x, Settling(t)) && t in x.priority && t !in x.life.terminal
    ensures var x' := DoSettling(x, t);
            && x'.priority == x.priority
            && if Retries(x, t) && !HasRoom(x.pool, x.priority[t]) then Joins(x, x', t) else x'.blocked == x.blocked
  {
    SettleMoves(x.life, t);
    hide Apply, HasRoom, Offered;
  }

  lemma JoinedIsOneTooMany(x: Executor, x': Executor, t: TaskId)
    requires PoolInv(x) && Sorted(x.pool, x.priority) && Joins(x, x', t)
    requires !HasRoom(x.pool, x.priority[t]) && t !in Pool.PoolBag(x.pool)
    ensures |Unfinished(x', x.priority[t])| >= CROWD
  {
    hide PoolInv, Sorted, HasRoom, Unfinished, Pool.PoolBag;
    OneIsTooMany(x, x', t, x.priority[t]);
  }

  lemma SettlingWaitsNot(x: Executor, t: TaskId)
    requires |x.pool.locals| > 0 && CanDo(x, Settling(t)) && t in x.priority && Retries(x, t)
    requires Below(DoSettling(x, t), CROWD) && PoolInv(x) && Sorted(x.pool, x.priority)
    ensures HasRoom(x.pool, x.priority[t])
  {
    OfferedIsOutside(x, t);
    SettledJoins(x, t);
    hide PoolInv, Sorted, DoSettling, HasRoom, Joins, Unfinished, Pool.PoolBag;
    if !HasRoom(x.pool, x.priority[t]) {
      JoinedIsOneTooMany(x, DoSettling(x, t), t);
    }
  }

  lemma RoomForSubmission(x: Executor, ds: seq<TaskId>, maxRetries: nat, p: TaskPriority)
    requires |x.pool.locals| > 0 && HasRoom(x.pool, p) && NobodyWaits(x)
    ensures NobodyWaits(DoSubmission(x, ds, maxRetries, p))
  {
    hide Apply, Offered, HasRoom, ReadyAtOnce;
  }

  lemma RoomForRetry(x: Executor, t: TaskId)
    requires |x.pool.locals| > 0 && Enabled(x.life, Settle(t)) && t in x.priority && NobodyWaits(x)
    requires Retries(x, t) ==> HasRoom(x.pool, x.priority[t])
    ensures NobodyWaits(DoSettling(x, t))
  {
    hide Apply, Offered, HasRoom, Retries;
  }

  lemma NobodyStartsWaiting(x: Executor, a: Action)
    requires PoolInv(x) && Sorted(x.pool, x.priority) && NobodyWaits(x) && CanDo(x, a) && Fits(x, a)
    requires Below(Do(x, a), CROWD)
    ensures NobodyWaits(Do(x, a))
  {
    NonemptyPool(x);
    hide PoolInv, Sorted, Below, Apply, HasRoom, Offered, Pool.Found, Pool.Searched, DoSettling, DoSubmission;
    match a
    case Submission(ds, maxRetries, p) =>
      SubmissionWaitsNot(x, ds, maxRetries, p);
      RoomForSubmission(x, ds, maxRetries, p);
    case Scheduling(t) => SchedulingWaitsNot(x, t);
    case Searching(w) =>
    case Returning(t, ok) =>
    case Settling(t) =>
      if Retries(x, t) {
        SettlingWaitsNot(x, t);
      }
      RoomForRetry(x, t);
    case Entering(t) =>
  }

  /** Every state after the first is below the bound. */
  ghost predicate StaysBelow(x: Executor, actions: seq<Action>, bound: nat)
    requires Possible(x, actions)
    decreases |actions|
  {
    actions == [] || (Below(Do(x, actions[0]), bound) && StaysBelow(Do(x, actions[0]), actions[1..], bound))
  }

  lemma {:induction false} NobodyWaitsAfter(x: Executor, actions: seq<Action>)
    requires PoolInv(x) && Sorted(x.pool, x.priority) && NobodyWaits(x)
    requires Possible(x, actions) && StaysBelow(x, actions, CROWD)
    ensures NobodyWaits(After(x, actions)) && PoolInv(After(x, actions))
    decreases |actions|
  {
    hide PoolInv, Sorted, NobodyWaits, Below, CanDo, Fits, Do;
    if actions != [] {
      NobodyStartsWaiting(x, actions[0]);
      ActionKeeps(x, actions[0]);
      ActionSorts(x, actions[0]);
      NobodyWaitsAfter(Do(x, actions[0]), actions[1..]);
    }
  }

  /** The caller's side: as long as there are never CROWD unfinished tasks of one priority, no thread
      ever waits inside `submit`, so the workers never jam. */
  lemma UncrowdedNeverJams(workers: nat, actions: seq<Action>)
    requires workers > 0 && Possible(NewExecutor(workers), actions) && StaysBelow(NewExecutor(workers), actions, CROWD)
    ensures NobodyWaits(After(NewExecutor(workers), actions)) && !Jammed(After(NewExecutor(workers), actions))
  {
    NewIsOk(workers);
    NobodyWaitsAfter(NewExecutor(workers), actions);
    var x := After(NewExecutor(workers), actions);
    NonemptyPool(x);
    assert Jammed(x) ==> WorkerBlocked(x, 0);
  }

  // ---- more workers

  ghost function BlockedOf(x: Executor, p: TaskPriority): set<TaskId> {
    set t | t in x.blocked && t in x.priority && x.priority[t] == p
  }

  /** Of each priority fewer than m workers' tasks wait for room. */
  ghost predicate FewBlocked(x: Executor, m: nat) {
    forall p :: |BlockedOf(x, p)| < m
  }

  lemma BlockedIsOutside(x: Executor, p: TaskPriority)
    requires PoolInv(x)
    ensures forall u :: u in BlockedOf(x, p) ==> u !in Pool.PoolBag(x.pool) && u in Unfinished(x, p)
  {
    forall u | u in BlockedOf(x, p)
      ensures u !in Pool.PoolBag(x.pool) && u in Unfinished(x, p)
    {
      OncePlaced(x, u);
      HeldIs(x, u);
      InvAt(x.life, u);
    }
  }

  /** Blocked by another action than a retry is nobody. */
  lemma BlockedShrinks(x: Executor, x': Executor, m: nat)
    requires FewBlocked(x, m) && x'.blocked <= x.blocked
    requires forall t :: t in x.blocked && t in x'.priority ==> t in x.priority && x'.priority[t] == x.priority[t]
    ensures FewBlocked(x', m)
  {
    forall p
      ensures |BlockedOf(x', p)| < m
    {
      SubsetSize(BlockedOf(x', p), BlockedOf(x, p));
    }
  }

  lemma JoinedBlocked(x: Executor, x': Executor, t: TaskId)
    requires Joins(x, x', t)
    ensures BlockedOf(x', x.priority[t]) == BlockedOf(x, x.priority[t]) + {t}
    ensures forall p :: p != x.priority[t] ==> BlockedOf(x', p) == BlockedOf(x, p)
    ensures forall p :: Unfinished(x', p) == Unfinished(x, p)
    ensures t in Unfinished(x', x.priority[t])
  {
  }

  lemma BlockedGrows(x: Executor, x': Executor, t: TaskId, m: nat)
    requires PoolInv(x) && Sorted(x.pool, x.priority) && FewBlocked(x, m) && Below(x', QUEUED + m)
    requires Joins(x, x', t) && !HasRoom(x.pool, x.priority[t]) && t !in Pool.PoolBag(x.pool)
    ensures FewBlocked(x', m)
  {
    var p := x.priority[t];
    JoinedBlocked(x, x', t);
    BlockedIsOutside(x, p);
    hide PoolInv, Sorted, HasRoom, Pool.PoolBag, BlockedOf, Unfinished;
    NoRoomIsACrowd(x, x', p, BlockedOf(x', p));
    forall q
      ensures |BlockedOf(x', q)| < m
    {
    }
  }

  lemma SettlingBlocks(x: Executor, t: TaskId, m: nat)
    requires |x.pool.locals| > 0 && CanDo(x, Settling(t)) && t in x.priority && Below(DoSettling(x, t), QUEUED + m)
    requires PoolInv(x) && Sorted(x.pool, x.priority) && FewBlocked(x, m)
    ensures FewBlocked(DoSettling(x, t), m)
  {
    OfferedIsOutside(x, t);
    SettledJoins(x, t);
    hide PoolInv, Sorted, FewBlocked, Below, Apply, HasRoom, Offered, Pool.PoolBag, DoSettling, Joins;
    var x' := DoSettling(x, t);
    if Retries(x, t) && !HasRoom(x.pool, x.priority[t]) {
      BlockedGrows(x, x', t, m);
    } else {
      BlockedShrinks(x, x', m);
    }
  }

  lemma ActionBlocks(x: Executor, a: Action, m: nat)
    requires PoolInv(x) && Sorted(x.pool, x.priority) && FewBlocked(x, m) && CanDo(x, a) && Fits(x, a)
    requires Below(Do(x, a), QUEUED + m)
    ensures FewBlocked(Do(x, a), m)
  {
    NonemptyPool(x);
    NewcomerWaitsNowhere(x);
    if a.Settling? {
      SettlingBlocks(x, a.id, m);
    } else {
      BlockedElsewhere(x, a);
      hide PoolInv, Sorted, FewBlocked, Below, CanDo, Fits, Do;
      BlockedShrinks(x, Do(x, a), m);
    }
  }

  lemma BlockedElsewhere(x: Executor, a: Action)
    requires PoolInv(x) && CanDo(x, a) && Fits(x, a) && !a.Settling?
    ensures Do(x, a).blocked <= x.blocked
    ensures forall t :: t in x.blocked && t in Do(x, a).priority ==>
            t in x.priority && Do(x, a).priority[t] == x.priority[t]
  {
    NewcomerWaitsNowhere(x);
    forall t | t in x.blocked
      ensures t in x.priority && t != x.life.nextId
    {
      HeldIs(x, t);
    }
    hide PoolInv, Apply, Offered, Entered, HasRoom, Pool.Found, Pool.Searched, DoSubmission;
    if a.Submission? {
      SubmissionShape(x, a.dependencies, a.maxRetries, a.priority);
    }
  }

  lemma {:induction false} FewBlockedAfter(x: Executor, actions: seq<Action>, m: nat)
    requires PoolInv(x) && Sorted(x.pool, x.priority) && FewBlocked(x, m)
    requires Possible(x, actions) && StaysBelow(x, actions, QUEUED + m)
    ensures FewBlocked(After(x, actions), m) && PoolInv(After(x, actions))
    decreases |actions|
  {
    hide PoolInv, Sorted, FewBlocked, Below, CanDo, Fits, Do;
    if actions != [] {
      ActionBlocks(x, actions[0], m);
      ActionKeeps(x, actions[0]);
      ActionSorts(x, actions[0]);
      FewBlockedAfter(Do(x, actions[0]), actions[1..], m);
    }
  }

  /** In a jam there is a blocked task for every worker. */
  lemma {:induction false} BlockedPerWorker(x: Executor, n: nat) returns (s: seq<TaskId>)
    requires Jammed(x) && n <= |x.pool.locals|
    ensures |s| == n && NoDuplicates(s)
    ensures forall w :: 0 <= w < n ==> BlockedAt(x, w, s[w])
  {
    hide Jammed;
    if n == 0 {
      s := [];
    } else {
      var rest := BlockedPerWorker(x, n - 1);
      assert WorkerBlocked(x, n - 1) by {
        JammedAt(x, n - 1);
      }
      var t :| BlockedAt(x, n - 1, t);
      s := rest + [t];
    }
  }

  lemma JammedAt(x: Executor, w: nat)
    requires Jammed(x) && w < |x.pool.locals|
    ensures WorkerBlocked(x, w)
  {
  }

  lemma JamIsWide(x: Executor, m: nat)
    requires Jammed(x) && FewBlocked(x, m)
    ensures m > 0 && |x.pool.locals| <= 4 * (m - 1)
  {
    hide Jammed;
    var s := BlockedPerWorker(x, |x.pool.locals|);
    var a, b, c, d := BlockedOf(x, Low), BlockedOf(x, Normal), BlockedOf(x, High), BlockedOf(x, Critical);
    forall t | t in s
      ensures t in a + b + c + d
    {
      var w :| 0 <= w < |s| && s[w] == t;
      assert BlockedAt(x, w, s[w]);
    }
    NoDuplicatesBound(s, a + b + c + d);
  }

  lemma SettlingStays(x: Executor, t: TaskId)
    requires |x.pool.locals| > 0 && Enabled(x.life, Settle(t)) && t in x.priority
    ensures |DoSettling(x, t).pool.locals| == |x.pool.locals|
  {
    hide Apply, Offered, DoSettling;
    OfferedFills(x.pool, t, x.priority[t]);
    SettlingShape(x, t);
  }

  lemma EnteringStays(x: Executor, t: TaskId)
    requires |x.pool.locals| > 0 && CanDo(x, Entering(t))
    ensures |DoEntering(x, t).pool.locals| == |x.pool.locals|
  {
    hide Entered;
    OfferedFills(x.pool, t, x.priority[t]);
  }

  lemma SearchingStays(x: Executor, w: nat)
    requires CanDo(x, Searching(w)) && Enabled(x.life, Start(Pool.Found(x.pool, w).value))
    ensures |DoSearching(x, w).pool.locals| == |x.pool.locals|
  {
    hide Pool.Found, Apply;
  }

  lemma OwnActionStays(x: Executor, a: Action)
    requires WorkerAction(x, a) && CanDo(x, a) && Fits(x, a)
    ensures |Do(x, a).pool.locals| == |x.pool.locals|
  {
    hide Apply, Enabled, GlobalRoom, Retries, Pool.Found, DoSettling, DoEntering, DoSearching, DoSubmission,
         DoScheduling;
    match a
    case Searching(w) => SearchingStays(x, w);
    case Returning(_, _) =>
    case Settling(t) => SettlingStays(x, t);
    case Entering(t) => EnteringStays(x, t);
  }

  lemma WorkersStayAt(x: Executor, a: Action)
    requires PoolInv(x) && CanDo(x, a) && Fits(x, a)
    ensures |Do(x, a).pool.locals| == |x.pool.locals|
  {
    hide PoolInv, CanDo, Fits, Do, OnlyFills;
    if WorkerAction(x, a) {
      OwnActionStays(x, a);
    } else {
      OthersOnlyFill(x, a);
      FillingStays(x, Do(x, a));
    }
  }

  lemma FillingStays(x: Executor, x': Executor)
    requires OnlyFills(x, x')
    ensures |x'.pool.locals| == |x.pool.locals|
  {
  }

  lemma {:induction false} WorkersStay(x: Executor, actions: seq<Action>)
    requires PoolInv(x) && Possible(x, actions)
    ensures |After(x, actions).pool.locals| == |x.pool.locals|
    decreases |actions|
  {
    hide PoolInv, CanDo, Fits, Do;
    if actions != [] {
      WorkersStayAt(x, actions[0]);
      ActionKeeps(x, actions[0]);
      WorkersStay(Do(x, actions[0]), actions[1..]);
    }
  }

  lemma NoneBlocked(workers: nat, m: nat)
    requires m > 0
    ensures FewBlocked(NewExecutor(workers), m) && Sorted(NewExecutor(workers).pool, NewExecutor(workers).priority)
    ensures |NewExecutor(workers).pool.locals| == workers
  {
    assert forall p :: BlockedOf(NewExecutor(workers), p) == {};
  }

  /** More workers take a larger crowd: n of them do not jam as long as there are never
      511 + 2047 + m unfinished tasks of one priority and n exceeds 4 * (m - 1). */
  lemma JamTakesACrowd(workers: nat, actions: seq<Action>, m: nat)
    requires m > 0 && workers > 4 * (m - 1) && Possible(NewExecutor(workers), actions)
    requires StaysBelow(NewExecutor(workers), actions, QUEUED + m)
    ensures !Jammed(After(NewExecutor(workers), actions))
  {
    hide Jammed, FewBlocked, PoolInv, StaysBelow, Sorted;
    var x0, x := NewExecutor(workers), After(NewExecutor(workers), actions);
    NewIsOk(workers);
    WorkersStay(x0, actions);
    NoneBlocked(workers, m);
    FewBlockedAfter(x0, actions, m);
    if Jammed(x) {
      JamIsWide(x, m);
    }
  }
}
