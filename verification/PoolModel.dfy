/** The pool of include/task_engine/thread_pool.hpp as a value, with queue operations as steps. */
module PoolModel {
  import opened Arithmetic
  import opened Sequences
  import opened Tasks
  import opened Options
  import opened PriorityLevels

  const LOCAL_CAPACITY := 512
  const GLOBAL_CAPACITY := 2048

  datatype Pool = Pool(locals: seq<Levels>, global: Levels, nextWorker: nat)

  datatype Source = Local(worker: nat) | Global

  ghost function LocalsBag(locals: seq<Levels>): multiset<TaskId> {
    if locals == [] then multiset{} else LocalsBag(locals[..|locals| - 1]) + Bag(locals[|locals| - 1])
  }

  /** All tasks in all queues. */
  ghost function PoolBag(pool: Pool): multiset<TaskId> {
    LocalsBag(pool.locals) + Bag(pool.global)
  }

  ghost predicate HasSource(pool: Pool, source: Source) {
    source.Local? ==> source.worker < |pool.locals|
  }

  ghost function At(pool: Pool, source: Source): Levels
    requires HasSource(pool, source)
  {
    if source.Global? then pool.global else pool.locals[source.worker]
  }

  ghost function With(pool: Pool, source: Source, levels: Levels): Pool
    requires HasSource(pool, source)
  {
    if source.Global? then pool.(global := levels) else pool.(locals := pool.locals[source.worker := levels])
  }

  lemma {:induction false} LocalsBagUpdate(locals: seq<Levels>, i: nat, levels: Levels)
    requires i < |locals|
    ensures LocalsBag(locals[i := levels]) + Bag(locals[i]) == LocalsBag(locals) + Bag(levels)
  {
    hide Bag, LocalsBag;
    var n, updated := |locals| - 1, locals[i := levels];
    LocalsBagLast(locals, n);
    LocalsBagLast(updated, n);
    if i == n {
      assert updated[..n] == locals[..n];
    } else {
      assert updated[..n] == locals[..n][i := levels];
      LocalsBagUpdate(locals[..n], i, levels);
      Shuffle(LocalsBag(locals[..n]), LocalsBag(updated[..n]), Bag(locals[n]), Bag(locals[i]), Bag(levels));
    }
  }

  lemma LocalsBagLast(locals: seq<Levels>, n: nat)
    requires |locals| == n + 1
    ensures LocalsBag(locals) == LocalsBag(locals[..n]) + Bag(locals[n])
  {
  }

  /** Changing one set changes the pool by what that set gained or lost. */
  lemma WithBag(pool: Pool, source: Source, levels: Levels)
    requires HasSource(pool, source)
    ensures PoolBag(With(pool, source, levels)) + Bag(At(pool, source)) == PoolBag(pool) + Bag(levels)
  {
    hide Bag, LocalsBag;
    var pool' := With(pool, source, levels);
    if source.Local? {
      LocalsBagUpdate(pool.locals, source.worker, levels);
      Shuffle(LocalsBag(pool.locals), LocalsBag(pool'.locals), Bag(pool.global), Bag(At(pool, source)), Bag(levels));
    } else {
      assert PoolBag(pool') + Bag(pool.global) == (LocalsBag(pool.locals) + Bag(levels)) + Bag(pool.global);
    }
  }

  // ---- submit

  function Target(pool: Pool): nat
    requires |pool.locals| > 0
    ensures Target(pool) < |pool.locals|
  {
    pool.nextWorker % |pool.locals|
  }

  /** Where a submission goes: the next worker's set in turn, or the global set if its queue is full. */
  function Room(pool: Pool, priority: TaskPriority): Option<Source>
    requires |pool.locals| > 0
  {
    var p := PriorityIndex(priority);
    if |pool.locals[Target(pool)][p]| < LOCAL_CAPACITY - 1 then Some(Local(Target(pool)))
    else if |pool.global[p]| < GLOBAL_CAPACITY - 1 then Some(Global)
    else None
  }

  ghost function Submitted(pool: Pool, source: Option<Source>, task: TaskId, priority: TaskPriority): Pool
    requires source.Some? ==> HasSource(pool, source.value)
  {
    var pool' := pool.(nextWorker := pool.nextWorker + 1);
    if source == None then pool' else With(pool', source.value, Put(At(pool, source.value), priority, task))
  }

  lemma SubmittedBag(pool: Pool, source: Source, task: TaskId, priority: TaskPriority)
    requires HasSource(pool, source)
    ensures PoolBag(Submitted(pool, Some(source), task, priority)) == PoolBag(pool) + multiset{task}
  {
    hide Bag, Put, LocalsBag;
    var pool' := pool.(nextWorker := pool.nextWorker + 1);
    assert PoolBag(pool') == PoolBag(pool) && At(pool', source) == At(pool, source);
    WithBag(pool', source, Put(At(pool, source), priority, task));
    PutBag(At(pool, source), priority, task);
    Cancel(PoolBag(Submitted(pool, Some(source), task, priority)), PoolBag(pool), Bag(At(pool, source)),
        multiset{task});
  }

  lemma Cancel(a: multiset<TaskId>, b: multiset<TaskId>, common: multiset<TaskId>, extra: multiset<TaskId>)
    requires a + common == b + (common + extra)
    ensures a == b + extra
  {
    forall x
      ensures a[x] == (b + extra)[x]
    {
      assert (a + common)[x] == (b + (common + extra))[x];
    }
  }

  // ---- the search of a worker

  /** The first of the other workers from i on, whose set is not empty. */
  function Victim(locals: seq<Levels>, worker: nat, i: nat): (r: Option<nat>)
    requires i <= |locals|
    ensures r.Some? ==> i <= r.value < |locals| && r.value != worker && Taken(locals[r.value]).Some?
    ensures r.Some? ==> forall j :: i <= j < r.value && j != worker ==> Taken(locals[j]) == None
    ensures r == None ==> forall j :: i <= j < |locals| && j != worker ==> Taken(locals[j]) == None
    decreases |locals| - i
  {
    if i == |locals| then None
    else if i != worker && Taken(locals[i]).Some? then Some(i)
    else Victim(locals, worker, i + 1)
  }

  /** Where a worker finds its next task: its own set, the global set, or another worker's set. */
  function Search(pool: Pool, worker: nat): (r: Option<Source>)
    requires worker < |pool.locals|
    ensures r.Some? ==> HasSource(pool, r.value) && Taken(At(pool, r.value)).Some?
  {
    if Taken(pool.locals[worker]).Some? then Some(Local(worker))
    else if Taken(pool.global).Some? then Some(Global)
    else
      var v := Victim(pool.locals, worker, 0);
      if v == None then None else Some(Local(v.value))
  }

  function Found(pool: Pool, worker: nat): Option<TaskId>
    requires worker < |pool.locals|
  {
    var source := Search(pool, worker);
    if source == None then None
    else if source.value.Global? then Taken(pool.global) else Taken(pool.locals[source.value.worker])
  }

  ghost function Searched(pool: Pool, worker: nat): Pool
    requires worker < |pool.locals|
  {
    var source := Search(pool, worker);
    if source == None then pool else With(pool, source.value, Left(At(pool, source.value)))
  }

  // ---- where a worker looks first, told by the contents of the sets

  ghost predicate NoTask(levels: Levels) {
    forall p :: levels[PriorityIndex(p)] == []
  }

  /** The task has come out of one set, and all others are as they were. */
  ghost predicate OneSetLost(pool: Pool, source: Source, task: TaskId, pool': Pool) {
    && |pool'.locals| == |pool.locals| && HasSource(pool, source) && pool'.nextWorker == pool.nextWorker
    && TakesHighest(At(pool, source), task, At(pool', source))
    && (source != Global ==> pool'.global == pool.global)
    && forall i :: 0 <= i < |pool.locals| && source != Local(i) ==> pool'.locals[i] == pool.locals[i]
  }

  /** The first other worker that has a task. */
  ghost predicate FirstOther(pool: Pool, worker: nat, v: nat) {
    && v < |pool.locals| && v != worker && !NoTask(pool.locals[v])
    && forall j :: 0 <= j < v && j != worker ==> NoTask(pool.locals[j])
  }

  ghost predicate SearchesInOrder(pool: Pool, worker: nat, r: Option<TaskId>, pool': Pool)
    requires worker < |pool.locals|
  {
    && (!NoTask(pool.locals[worker]) ==> r.Some? && OneSetLost(pool, Local(worker), r.value, pool'))
    && (NoTask(pool.locals[worker]) && !NoTask(pool.global) ==> r.Some? && OneSetLost(pool, Global, r.value, pool'))
    && (NoTask(pool.locals[worker]) && NoTask(pool.global) ==>
          && (r == None ==> pool' == pool && forall v :: 0 <= v < |pool.locals| ==> NoTask(pool.locals[v]))
          && (r.Some? ==> exists v :: FirstOther(pool, worker, v) && OneSetLost(pool, Local(v), r.value, pool')))
  }

  lemma SourceLoses(pool: Pool, source: Source)
    requires HasSource(pool, source) && Taken(At(pool, source)).Some?
    ensures OneSetLost(pool, source, Taken(At(pool, source)).value, With(pool, source, Left(At(pool, source))))
  {
    TakenIsHighest(At(pool, source));
  }

  /** The own set comes first, then the global one, then the other workers in index order; and what is
      taken is the first task of the highest priority there. */
  lemma SearchOrder(pool: Pool, worker: nat)
    requires worker < |pool.locals|
    ensures SearchesInOrder(pool, worker, Found(pool, worker), Searched(pool, worker))
  {
    hide Taken, Left, TakesHighest;
    TakenIsHighest(pool.locals[worker]);
    TakenIsHighest(pool.global);
    forall v | 0 <= v < |pool.locals|
      ensures NoTask(pool.locals[v]) <==> Taken(pool.locals[v]) == None
    {
      TakenIsHighest(pool.locals[v]);
    }
    var source := Search(pool, worker);
    if source.Some? {
      SourceLoses(pool, source.value);
    }
  }

  // ---- whose turn it is

  /** The target j submissions later. */
  function TargetAfter(pool: Pool, j: nat): nat
    requires |pool.locals| > 0
  {
    Target(pool.(nextWorker := pool.nextWorker + j))
  }

  /** Among as many consecutive submissions as there are workers, each worker's set is offered the task
      exactly once. */
  lemma TurnsAreTaken(pool: Pool, w: nat) returns (k: nat)
    requires w < |pool.locals|
    ensures k < |pool.locals|
    ensures forall j: nat :: j < |pool.locals| ==> (TargetAfter(pool, j) == w <==> j == k)
  {
    var n, t := |pool.locals|, Wrap(pool.nextWorker, |pool.locals|);
    k := if t <= w then w - t else w - t + n;
    forall j: nat | j < n
      ensures TargetAfter(pool, j) == w <==> j == k
    {
      WrapSum(pool.nextWorker, j, n);
    }
  }

  /** Where a submission goes, in numbers: to the set of the worker whose turn it is unless 511 tasks
      of the priority are there, then to the global set unless 2047 are there, otherwise nowhere. */
  lemma RoomOrder(pool: Pool, priority: TaskPriority)
    requires |pool.locals| > 0
    ensures var own := |pool.locals[Target(pool)][PriorityIndex(priority)]|;
            var shared := |pool.global[PriorityIndex(priority)]|;
            && (Room(pool, priority) == Some(Local(Target(pool))) <==> own < 511)
            && (Room(pool, priority) == Some(Global) <==> own >= 511 && shared < 2047)
            && (Room(pool, priority) == None <==> own >= 511 && shared >= 2047)
  {
  }

  lemma TakenBag(levels: Levels)
    ensures Taken(levels).Some? ==> Bag(levels) == Bag(Left(levels)) + multiset{Taken(levels).value}
    ensures Taken(levels) == None <==> Bag(levels) == multiset{}
  {
    var h := HighestBelow(levels, 4);
    if h.Some? {
      PopBag(levels, h.value);
      assert Taken(levels).value in Bag(levels);
    }
  }

  lemma SourceTakenBag(pool: Pool, source: Source)
    requires HasSource(pool, source) && Taken(At(pool, source)).Some?
    ensures PoolBag(pool) == PoolBag(With(pool, source, Left(At(pool, source))))
            + multiset{Taken(At(pool, source)).value}
  {
    hide Bag, Taken, Left, LocalsBag;
    var levels := At(pool, source);
    WithBag(pool, source, Left(levels));
    TakenBag(levels);
    var rest, task := Bag(Left(levels)), multiset{Taken(levels).value};
    var pool' := With(pool, source, Left(levels));
    assert PoolBag(pool') + (rest + task) == PoolBag(pool) + rest;
    assert PoolBag(pool) + rest == (PoolBag(pool') + task) + rest;
    Cancel(PoolBag(pool), PoolBag(pool') + task, rest, multiset{});
  }

  lemma {:induction false} LocalsBagEmptyIff(locals: seq<Levels>)
    ensures LocalsBag(locals) == multiset{} <==> forall i :: 0 <= i < |locals| ==> Taken(locals[i]) == None
  {
    hide Bag, Taken;
    if locals != [] {
      LocalsBagEmptyIff(locals[..|locals| - 1]);
      TakenBag(locals[|locals| - 1]);
      forall i | 0 <= i < |locals| - 1
        ensures locals[i] == locals[..|locals| - 1][i]
      {
      }
    }
  }

  /** A worker's search finds nothing exactly when every queue of the pool is empty. */
  lemma SearchFindsNothingIff(pool: Pool, worker: nat)
    requires worker < |pool.locals|
    ensures Search(pool, worker) == None <==> PoolBag(pool) == multiset{}
    ensures Found(pool, worker) == None <==> PoolBag(pool) == multiset{}
  {
    hide Bag, Taken, LocalsBag;
    LocalsBagEmptyIff(pool.locals);
    TakenBag(pool.global);
  }

  lemma SearchedBag(pool: Pool, worker: nat)
    requires worker < |pool.locals| && Found(pool, worker).Some?
    ensures PoolBag(pool) == PoolBag(Searched(pool, worker)) + multiset{Found(pool, worker).value}
  {
    hide Bag, Taken, Left, LocalsBag, PoolBag;
    SourceTakenBag(pool, Search(pool, worker).value);
  }

  // ---- runs

  datatype Op = Submit(task: TaskId, priority: TaskPriority) | Find(worker: nat)

  /** accepted and taken are history: the tasks put in a queue and the tasks handed to a worker. */
  datatype Run = Run(pool: Pool, accepted: multiset<TaskId>, taken: multiset<TaskId>)

  function EmptyPool(workers: nat): Pool {
    Pool(seq(workers, _ => [[], [], [], []]), [[], [], [], []], 0)
  }

  ghost function After(workers: nat, ops: seq<Op>): (r: Run)
    requires workers > 0
    ensures |r.pool.locals| == workers
  {
    if ops == [] then Run(EmptyPool(workers), multiset{}, multiset{}) else
      var r := After(workers, ops[..|ops| - 1]);
      match ops[|ops| - 1]
      case Submit(task, priority) =>
        var source := Room(r.pool, priority);
        Run(Submitted(r.pool, source, task, priority),
            if source == None then r.accepted else r.accepted + multiset{task}, r.taken)
      case Find(worker) =>
        if worker >= workers || Found(r.pool, worker) == None then r
        else Run(Searched(r.pool, worker), r.accepted, r.taken + multiset{Found(r.pool, worker).value})
  }

  lemma {:induction false} EmptyLocalsBag(workers: nat)
    ensures LocalsBag(EmptyPool(workers).locals) == multiset{}
  {
    if workers > 0 {
      EmptyLocalsBag(workers - 1);
      assert EmptyPool(workers).locals[..workers - 1] == EmptyPool(workers - 1).locals;
    }
  }

  /** Over any sequence of submissions and searches by any workers: every accepted task is in
      exactly one queue until it is handed to exactly one worker, and the number of pending tasks
      is the number accepted less the number taken. */
  lemma {:induction false} PoolConservesTasks(workers: nat, ops: seq<Op>)
    requires workers > 0
    ensures var r := After(workers, ops);
            && r.accepted == r.taken + PoolBag(r.pool)
            && |PoolBag(r.pool)| == |r.accepted| - |r.taken|
  {
    hide PoolBag, Submitted, Searched, Room, Found;
    if ops == [] {
      EmptyLocalsBag(workers);
      assert PoolBag(EmptyPool(workers)) == multiset{} by {
        EmptyBag(workers);
      }
    } else {
      PoolConservesTasks(workers, ops[..|ops| - 1]);
      var r := After(workers, ops[..|ops| - 1]);
      match ops[|ops| - 1]
      case Submit(task, priority) => SubmitBag(r.pool, task, priority);
      case Find(worker) =>
        if worker < workers && Found(r.pool, worker).Some? {
          SearchedBag(r.pool, worker);
        }
    }
  }

  lemma EmptyBag(workers: nat)
    ensures PoolBag(EmptyPool(workers)) == multiset{}
  {
    EmptyLocalsBag(workers);
  }

  lemma SubmitBag(pool: Pool, task: TaskId, priority: TaskPriority)
    requires |pool.locals| > 0
    ensures var source := Room(pool, priority);
            && (source.Some? ==> HasSource(pool, source.value))
            && PoolBag(Submitted(pool, source, task, priority))
               == PoolBag(pool) + if source == None then multiset{} else multiset{task}
  {
    hide Bag, Put, LocalsBag;
    var source := Room(pool, priority);
    if source.Some? {
      SubmittedBag(pool, source.value, task, priority);
    }
  }
}
