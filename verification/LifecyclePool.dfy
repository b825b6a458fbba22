/** include/task_engine/task_executor.hpp on top of include/task_engine/thread_pool.hpp: the step
    relation of Lifecycle with its bag of queued tasks taken apart into the pool's bounded queues and
    the threads that wait inside `ThreadPool::submit` for room in them. */
module LifecyclePool {
  import opened Options
  import opened Tasks
  import opened GraphModel
  import opened PriorityLevels
  import opened Lifecycle
  import Pool = PoolModel

  /** `held` says which worker has the task in hand. A worker with a blocked task is inside `submit`,
      called by `handle_failure`; `waiting` are the tasks with which clients are there, and
      `scheduler` the one with which the scheduler thread is. */
  datatype Executor = Executor(
    life: State,
    pool: Pool.Pool,
    held: map<TaskId, nat>,
    blocked: set<TaskId>,
    waiting: set<TaskId>,
    scheduler: Option<TaskId>,
    priority: map<TaskId, TaskPriority>)

  datatype Action =
    | Submission(dependencies: seq<TaskId>, maxRetries: nat, priority: TaskPriority)
    | Scheduling(id: TaskId)
    | Searching(worker: nat)
    | Returning(id: TaskId, ok: bool)
    | Settling(id: TaskId)
    | Entering(id: TaskId)

  function NewExecutor(workers: nat): Executor {
    Executor(INITIAL, Pool.EmptyPool(workers), map[], {}, {}, None, map[])
  }

  /** The test of the loop in `submit`, which tries the global set only. */
  predicate GlobalRoom(pool: Pool.Pool, priority: TaskPriority) {
    |pool.global[PriorityIndex(priority)]| < Pool.GLOBAL_CAPACITY - 1
  }

  predicate Waits(x: Executor, t: TaskId) {
    t in x.blocked || t in x.waiting || x.scheduler == Some(t)
  }

  predicate FreeWorker(x: Executor, w: nat) {
    w < |x.pool.locals| && forall t :: t in x.held ==> x.held[t] != w
  }

  ghost predicate CanDo(x: Executor, a: Action) {
    match a
    case Submission(_, _, _) => true
    case Scheduling(t) => x.scheduler == None && Enabled(x.life, Tick(t))
    case Searching(w) => FreeWorker(x, w) && Pool.Found(x.pool, w).Some?
    case Returning(t, ok) => t in x.held && Enabled(x.life, Return(t, ok))
    case Settling(t) => t in x.held && Enabled(x.life, Settle(t))
    case Entering(t) => Waits(x, t) && t in x.priority && GlobalRoom(x.pool, x.priority[t])
  }

  /** The step of the executor's relation that an action is; entering the pool is none. */
  ghost function LifeStep(x: Executor, a: Action): Option<Step>
    requires CanDo(x, a)
  {
    match a
    case Submission(ds, maxRetries, _) => Some(Submit(ds, maxRetries))
    case Scheduling(t) => Some(Tick(t))
    case Searching(w) => Some(Start(Pool.Found(x.pool, w).value))
    case Returning(t, ok) => Some(Return(t, ok))
    case Settling(t) => Some(Settle(t))
    case Entering(_) => None
  }

  // ---- what each action does

  /** One attempt of `submit`: the local set in turn, or the global one, or no room. */
  ghost function Offered(pool: Pool.Pool, t: TaskId, priority: TaskPriority): Pool.Pool
    requires |pool.locals| > 0
  {
    Pool.Submitted(pool, Pool.Room(pool, priority), t, priority)
  }

  predicate HasRoom(pool: Pool.Pool, priority: TaskPriority)
    requires |pool.locals| > 0
  {
    Pool.Room(pool, priority).Some?
  }

  ghost function Entered(pool: Pool.Pool, t: TaskId, priority: TaskPriority): Pool.Pool {
    Pool.With(pool, Pool.Global, Put(pool.global, priority, t))
  }

  /** The id a submission gives, and whether the task goes to the pool at once. */
  ghost predicate ReadyAtOnce(x: Executor, ds: seq<TaskId>, maxRetries: nat) {
    x.life.nextId in Recorded(x.life, ds, maxRetries).graph
        && Recorded(x.life, ds, maxRetries).graph[x.life.nextId].IsReady()
  }

  ghost function DoSubmission(x: Executor, ds: seq<TaskId>, maxRetries: nat, priority: TaskPriority): Executor
    requires |x.pool.locals| > 0
  {
    var id := x.life.nextId;
    var x1 := x.(life := Apply(x.life, Submit(ds, maxRetries)), priority := x.priority[id := priority]);
    if !ReadyAtOnce(x, ds, maxRetries) then x1
    else x1.(pool := Offered(x.pool, id, priority),
             waiting := if HasRoom(x.pool, priority) then x.waiting else x.waiting + {id})
  }

  ghost function DoScheduling(x: Executor, t: TaskId): Executor
    requires |x.pool.locals| > 0 && Enabled(x.life, Tick(t)) && t in x.priority
  {
    x.(life := Apply(x.life, Tick(t)), pool := Offered(x.pool, t, x.priority[t]),
       scheduler := if HasRoom(x.pool, x.priority[t]) then x.scheduler else Some(t))
  }

  ghost function DoSearching(x: Executor, w: nat): Executor
    requires CanDo(x, Searching(w)) && Enabled(x.life, Start(Pool.Found(x.pool, w).value))
  {
    var t := Pool.Found(x.pool, w).value;
    x.(life := Apply(x.life, Start(t)), pool := Pool.Searched(x.pool, w), held := x.held[t := w])
  }

  ghost predicate Retries(x: Executor, t: TaskId)
    requires t in x.life.graph
  {
    !x.life.graph[t].status.Completed? && x.life.graph[t].CanRetry()
  }

  ghost function DoSettling(x: Executor, t: TaskId): Executor
    requires |x.pool.locals| > 0 && Enabled(x.life, Settle(t)) && t in x.priority
  {
    var x1 := x.(life := Apply(x.life, Settle(t)));
    if !Retries(x, t) then x1.(held := x.held - {t})
    else if HasRoom(x.pool, x.priority[t]) then x1.(pool := Offered(x.pool, t, x.priority[t]), held := x.held - {t})
    else x1.(pool := Offered(x.pool, t, x.priority[t]), blocked := x.blocked + {t})
  }

  ghost function DoEntering(x: Executor, t: TaskId): Executor
    requires CanDo(x, Entering(t))
  {
    x.(pool := Entered(x.pool, t, x.priority[t]),
       held := x.held - {t}, blocked := x.blocked - {t}, waiting := x.waiting - {t},
       scheduler := if x.scheduler == Some(t) then None else x.scheduler)
  }

  /** An action in a state where it is a step of the executor's relation. */
  ghost predicate Fits(x: Executor, a: Action) {
    && |x.pool.locals| > 0 && CanDo(x, a)
    && (LifeStep(x, a).Some? ==> Enabled(x.life, LifeStep(x, a).value))
    && (a.Scheduling? || a.Settling? ==> a.id in x.priority)
  }

  ghost function Do(x: Executor, a: Action): Executor
    requires Fits(x, a)
  {
    match a
    case Submission(ds, maxRetries, priority) => DoSubmission(x, ds, maxRetries, priority)
    case Scheduling(t) => DoScheduling(x, t)
    case Searching(w) => DoSearching(x, w)
    case Returning(t, ok) => x.(life := Apply(x.life, Return(t, ok)))
    case Settling(t) => DoSettling(x, t)
    case Entering(t) => DoEntering(x, t)
  }

  /** A thread that waits for room puts its task at the end of the global queue of its priority, and
      takes no worker's turn. */
  lemma EnteringIsGlobal(x: Executor, t: TaskId)
    requires CanDo(x, Entering(t))
    ensures var i, pool, pool' := PriorityIndex(x.priority[t]), x.pool, DoEntering(x, t).pool;
            && pool'.global[i] == pool.global[i] + [t] && |pool'.global[i]| <= 2047
            && (forall j :: 0 <= j < 4 && j != i ==> pool'.global[j] == pool.global[j])
            && pool'.locals == pool.locals && pool'.nextWorker == pool.nextWorker
  {
  }

  /** What a submission and a settling change, without their case analysis. */
  lemma SubmissionShape(x: Executor, ds: seq<TaskId>, maxRetries: nat, priority: TaskPriority)
    requires |x.pool.locals| > 0
    ensures var x', id := DoSubmission(x, ds, maxRetries, priority), x.life.nextId;
            && x'.life == Apply(x.life, Submit(ds, maxRetries)) && x'.priority == x.priority[id := priority]
            && x'.held == x.held && x'.blocked == x.blocked && x'.scheduler == x.scheduler
            && (x'.pool == x.pool || x'.pool == Offered(x.pool, id, priority))
            && (x'.waiting == x.waiting || x'.waiting == x.waiting + {id})
  {
    hide Apply, Offered, HasRoom, ReadyAtOnce;
  }

  lemma SettlingShape(x: Executor, t: TaskId)
    requires |x.pool.locals| > 0 && Enabled(x.life, Settle(t)) && t in x.priority
    ensures var x' := DoSettling(x, t);
            && x'.life == Apply(x.life, Settle(t)) && x'.priority == x.priority
            && x'.waiting == x.waiting && x'.scheduler == x.scheduler
            && (x'.blocked == x.blocked || x'.blocked == x.blocked + {t})
            && (x'.pool == x.pool || x'.pool == Offered(x.pool, t, x.priority[t]))
  {
    hide Apply, Offered, HasRoom, Retries;
  }

  // ---- the invariant

  /** The tasks marked as queued that no queue holds yet. */
  ghost function Limbo(blocked: set<TaskId>, waiting: set<TaskId>, scheduler: Option<TaskId>): multiset<TaskId> {
    multiset(blocked) + multiset(waiting) + if scheduler.Some? then multiset{scheduler.value} else multiset{}
  }

  /** Each worker has at most one task in hand, and these are the tasks started and not yet given up. */
  ghost predicate HeldOk(held: map<TaskId, nat>, workers: nat, running: multiset<TaskId>, settling: multiset<TaskId>,
                         blocked: set<TaskId>) {
    && (forall t :: t in held ==> held[t] < workers)
    && (forall t, u :: t in held && u in held && held[t] == held[u] ==> t == u)
    && (forall t :: t in held <==> t in running || t in settling || t in blocked)
  }

  ghost predicate BagOk(queued: multiset<TaskId>, bag: multiset<TaskId>, limbo: multiset<TaskId>) {
    queued == bag + limbo
  }

  ghost predicate PoolInv(x: Executor) {
    && Inv(x.life) && |x.pool.locals| > 0
    && BagOk(x.life.queued, Pool.PoolBag(x.pool), Limbo(x.blocked, x.waiting, x.scheduler))
    && HeldOk(x.held, |x.pool.locals|, x.life.running, x.life.settling, x.blocked)
    && x.priority.Keys == x.life.graph.Keys
  }

  lemma NewIsOk(workers: nat)
    requires workers > 0
    ensures PoolInv(NewExecutor(workers))
  {
    InitialOk();
    Pool.EmptyBag(workers);
  }

  /** A task is queued, running or being settled, and once only. */
  lemma OncePlaced(x: Executor, t: TaskId)
    requires PoolInv(x)
    ensures x.life.queued[t] + x.life.running[t] + x.life.settling[t] <= 1
    ensures Pool.PoolBag(x.pool)[t] + Limbo(x.blocked, x.waiting, x.scheduler)[t] == x.life.queued[t]
    ensures t in x.life.queued || t in x.life.running || t in x.life.settling ==> t in x.life.graph
    ensures Waits(x, t) <==> t in Limbo(x.blocked, x.waiting, x.scheduler)
  {
    if t in x.life.graph {
      InvAt(x.life, t);
    }
  }

  /** What a worker finds in the pool is a task it may start. */
  lemma SearchIsAStart(x: Executor, w: nat)
    requires PoolInv(x) && CanDo(x, Searching(w))
    ensures Enabled(x.life, Start(Pool.Found(x.pool, w).value))
    ensures !Waits(x, Pool.Found(x.pool, w).value)
    ensures Pool.PoolBag(x.pool) == Pool.PoolBag(Pool.Searched(x.pool, w)) + multiset{Pool.Found(x.pool, w).value}
  {
    hide PoolInv, Pool.Found, Pool.Searched, Pool.PoolBag;
    var t := Pool.Found(x.pool, w).value;
    Pool.SearchedBag(x.pool, w);
    assert Pool.PoolBag(x.pool)[t] > 0;
    OncePlaced(x, t);
  }

  /** Every action of the executor and its pool is a step of the executor's relation or leaves its
      state alone, so what holds of all runs of that relation holds here. */
  lemma ActionsAreSteps(x: Executor, a: Action)
    requires PoolInv(x) && CanDo(x, a)
    ensures Fits(x, a)
    ensures var step := LifeStep(x, a);
            if step.Some? then Enabled(x.life, step.value) && Do(x, a).life == Apply(x.life, step.value)
            else Do(x, a).life == x.life
  {
    hide PoolInv, Pool.Found;
    if a.Searching? {
      SearchIsAStart(x, a.worker);
    }
    SizesAndKeys(x);
  }

  lemma SizesAndKeys(x: Executor)
    requires PoolInv(x)
    ensures |x.pool.locals| > 0 && x.priority.Keys == x.life.graph.Keys
  {
  }

  // ---- preservation

  lemma OfferedBag(pool: Pool.Pool, t: TaskId, priority: TaskPriority)
    requires |pool.locals| > 0
    ensures Pool.PoolBag(Offered(pool, t, priority))
            == Pool.PoolBag(pool) + if HasRoom(pool, priority) then multiset{t} else multiset{}
    ensures |Offered(pool, t, priority).locals| == |pool.locals|
  {
    hide Pool.PoolBag, Put;
    Pool.SubmitBag(pool, t, priority);
  }

  lemma EnteredBag(pool: Pool.Pool, t: TaskId, priority: TaskPriority)
    ensures Pool.PoolBag(Entered(pool, t, priority)) == Pool.PoolBag(pool) + multiset{t}
    ensures |Entered(pool, t, priority).locals| == |pool.locals|
  {
    hide Pool.PoolBag, Put, Bag;
    Pool.WithBag(pool, Pool.Global, Put(pool.global, priority, t));
    PutBag(pool.global, priority, t);
    Pool.Cancel(Pool.PoolBag(Entered(pool, t, priority)), Pool.PoolBag(pool), Bag(pool.global), multiset{t});
  }

  lemma BagMore(queued: multiset<TaskId>, bag: multiset<TaskId>, limbo: multiset<TaskId>, t: TaskId)
    requires BagOk(queued, bag, limbo)
    ensures BagOk(queued + multiset{t}, bag + multiset{t}, limbo)
    ensures BagOk(queued + multiset{t}, bag, limbo + multiset{t})
  {
    assert queued + multiset{t} == (bag + multiset{t}) + limbo;
    assert queued + multiset{t} == bag + (limbo + multiset{t});
  }

  lemma BagLess(queued: multiset<TaskId>, bag: multiset<TaskId>, limbo: multiset<TaskId>, t: TaskId)
    requires BagOk(queued, bag + multiset{t}, limbo)
    ensures BagOk(queued - multiset{t}, bag, limbo)
  {
  }

  lemma LimboMore(blocked: set<TaskId>, waiting: set<TaskId>, scheduler: Option<TaskId>, t: TaskId)
    requires t !in Limbo(blocked, waiting, scheduler)
    ensures Limbo(blocked + {t}, waiting, scheduler) == Limbo(blocked, waiting, scheduler) + multiset{t}
    ensures Limbo(blocked, waiting + {t}, scheduler) == Limbo(blocked, waiting, scheduler) + multiset{t}
    ensures scheduler == None ==> Limbo(blocked, waiting, Some(t)) == Limbo(blocked, waiting, scheduler) + multiset{t}
  {
    assert t !in multiset(blocked) && t !in multiset(waiting);
    assert multiset(blocked + {t}) == multiset(blocked) + multiset{t};
    assert multiset(waiting + {t}) == multiset(waiting) + multiset{t};
  }

  lemma LimboLess(blocked: set<TaskId>, waiting: set<TaskId>, scheduler: Option<TaskId>, t: TaskId)
    requires Limbo(blocked, waiting, scheduler)[t] == 1
    ensures Limbo(blocked, waiting, scheduler)
            == Limbo(blocked - {t}, waiting - {t}, if scheduler == Some(t) then None else scheduler) + multiset{t}
  {
  }

  lemma HeldTaken(held: map<TaskId, nat>, workers: nat, running: multiset<TaskId>, settling: multiset<TaskId>,
                  blocked: set<TaskId>, t: TaskId, w: nat)
    requires HeldOk(held, workers, running, settling, blocked)
    requires w < workers && (forall u :: u in held ==> held[u] != w) && t !in held
    ensures HeldOk(held[t := w], workers, running + multiset{t}, settling, blocked)
  {
  }

  lemma HeldReturned(held: map<TaskId, nat>, workers: nat, running: multiset<TaskId>, settling: multiset<TaskId>,
                     blocked: set<TaskId>, t: TaskId)
    requires HeldOk(held, workers, running, settling, blocked) && t in running
    ensures HeldOk(held, workers, running - multiset{t}, settling + multiset{t}, blocked)
  {
  }

  /** The task leaves the worker's hands, or stays there while the worker waits for room. */
  lemma HeldSettled(held: map<TaskId, nat>, workers: nat, running: multiset<TaskId>, settling: multiset<TaskId>,
                    blocked: set<TaskId>, t: TaskId)
    requires HeldOk(held, workers, running, settling, blocked) && settling[t] == 1 && running[t] == 0
    ensures t !in blocked ==> HeldOk(held - {t}, workers, running, settling - multiset{t}, blocked)
    ensures HeldOk(held, workers, running, settling - multiset{t}, blocked + {t})
  {
    forall u
      ensures u in settling - multiset{t} <==> u in settling && u != t
    {
      assert (settling - multiset{t})[u] == if u == t then settling[u] - 1 else settling[u];
    }
  }

  lemma HeldEntered(held: map<TaskId, nat>, workers: nat, running: multiset<TaskId>, settling: multiset<TaskId>,
                    blocked: set<TaskId>, t: TaskId)
    requires HeldOk(held, workers, running, settling, blocked) && settling[t] == 0 && running[t] == 0
    ensures HeldOk(held - {t}, workers, running, settling, blocked - {t})
  {
  }

  lemma SubmitMoves(s: State, ds: seq<TaskId>, maxRetries: nat)
    requires Inv(s)
    ensures var s', s1 := Apply(s, Submit(ds, maxRetries)), Recorded(s, ds, maxRetries);
            && s.nextId in s1.graph && s.nextId !in s.graph
            && s'.queued == s.queued + (if s1.graph[s.nextId].IsReady() then multiset{s.nextId} else multiset{})
            && s'.running == s.running && s'.settling == s.settling && s'.terminal == s.terminal
            && s'.graph.Keys == s.graph.Keys + {s.nextId}
  {
    RecordedMoves(s, ds, maxRetries);
    hide Recorded, Inv;
    var s1 := Recorded(s, ds, maxRetries);
    assert Apply(s, Submit(ds, maxRetries)) == if s1.graph[s.nextId].IsReady() then Enqueue(s1, s.nextId) else s1;
  }

  lemma RecordedMoves(s: State, ds: seq<TaskId>, maxRetries: nat)
    requires Inv(s)
    ensures var s1 := Recorded(s, ds, maxRetries);
            && s.nextId !in s.graph && s1.graph.Keys == s.graph.Keys + {s.nextId} && s1.terminal == s.terminal
            && s1.queued == s.queued && s1.running == s.running && s1.settling == s.settling
  {
    hide Inv;
    Unused(s);
    RecordedAt(s, ds, maxRetries);
    RecordedElsewhere(s, ds, maxRetries);
    hide Base, Recorded, AddDependencies, AddTask, Known;
  }

  lemma Unused(s: State)
    requires Inv(s)
    ensures Base(s) && s.nextId !in s.graph
  {
  }

  lemma SettleMoves(s: State, t: TaskId)
    requires Enabled(s, Settle(t))
    ensures var s', again := Apply(s, Settle(t)), !s.graph[t].status.Completed? && s.graph[t].CanRetry();
            && s'.queued == s.queued + (if again then multiset{t} else multiset{})
            && s'.running == s.running && s'.settling == s.settling - multiset{t}
            && s'.graph.Keys == s.graph.Keys
            && s'.terminal == s.terminal + (if again then [] else [t])
  {
    hide NotifyCompleted;
    NotifiedKeys(s.graph, t);
  }

  lemma NotifiedKeys(g: Graph, t: TaskId)
    ensures NotifyCompleted(g, t).Keys == g.Keys
  {
  }

  lemma SubmissionKeeps(x: Executor, ds: seq<TaskId>, maxRetries: nat, priority: TaskPriority)
    requires PoolInv(x)
    ensures PoolInv(DoSubmission(x, ds, maxRetries, priority))
  {
    hide Inv, Apply, Recorded, Offered, Pool.PoolBag, HasRoom, Limbo, BagOk, HeldOk, DoSubmission;
    StepKeeps(x.life, Submit(ds, maxRetries));
    SubmitMoves(x.life, ds, maxRetries);
    SubmissionShape(x, ds, maxRetries, priority);
    OfferedBag(x.pool, x.life.nextId, priority);
    SubmissionBag(x, ds, maxRetries, priority);
  }

  lemma SubmissionBag(x: Executor, ds: seq<TaskId>, maxRetries: nat, priority: TaskPriority)
    requires PoolInv(x)
    ensures var x' := DoSubmission(x, ds, maxRetries, priority);
            BagOk(x'.life.queued, Pool.PoolBag(x'.pool), Limbo(x'.blocked, x'.waiting, x'.scheduler))
  {
    hide Inv, Apply, Recorded, Offered, Pool.PoolBag, HasRoom, Limbo, BagOk, HeldOk;
    var id := x.life.nextId;
    SubmitMoves(x.life, ds, maxRetries);
    OfferedBag(x.pool, id, priority);
    NewcomerWaitsNowhere(x);
    LimboMore(x.blocked, x.waiting, x.scheduler, id);
    BagMore(x.life.queued, Pool.PoolBag(x.pool), Limbo(x.blocked, x.waiting, x.scheduler), id);
    Plus(x.life.queued);
    Plus(Pool.PoolBag(x.pool));
  }

  lemma Plus(bag: multiset<TaskId>)
    ensures bag + multiset{} == bag
  {
  }

  lemma NewcomerWaitsNowhere(x: Executor)
    requires PoolInv(x)
    ensures x.life.nextId !in Limbo(x.blocked, x.waiting, x.scheduler)
  {
    OncePlaced(x, x.life.nextId);
    Unused(x.life);
  }

  lemma SchedulingKeeps(x: Executor, t: TaskId)
    requires PoolInv(x) && CanDo(x, Scheduling(t))
    ensures t in x.priority && PoolInv(DoScheduling(x, t))
  {
    TickedIsNotQueued(x, t);
    hide Inv, Offered, Pool.PoolBag, HasRoom, Limbo, BagOk, HeldOk;
    StepKeeps(x.life, Tick(t));
    OfferedBag(x.pool, t, x.priority[t]);
    LimboMore(x.blocked, x.waiting, x.scheduler, t);
    BagMore(x.life.queued, Pool.PoolBag(x.pool), Limbo(x.blocked, x.waiting, x.scheduler), t);
    Plus(Pool.PoolBag(x.pool));
  }

  lemma TickedIsNotQueued(x: Executor, t: TaskId)
    requires PoolInv(x) && Enabled(x.life, Tick(t))
    ensures t !in Limbo(x.blocked, x.waiting, x.scheduler)
  {
    OncePlaced(x, t);
    InvAt(x.life, t);
  }

  lemma SearchingKeeps(x: Executor, w: nat)
    requires PoolInv(x) && CanDo(x, Searching(w))
    ensures Enabled(x.life, Start(Pool.Found(x.pool, w).value)) && PoolInv(DoSearching(x, w))
  {
    hide Inv, Pool.Found, Pool.Searched, Pool.PoolBag, Limbo, BagOk;
    SearchIsAStart(x, w);
    var t := Pool.Found(x.pool, w).value;
    StepKeeps(x.life, Start(t));
    OncePlaced(x, t);
    SearchedSize(x.pool, w);
    assert t !in x.held;
    hide HeldOk;
    HeldTaken(x.held, |x.pool.locals|, x.life.running, x.life.settling, x.blocked, t, w);
    BagLess(x.life.queued, Pool.PoolBag(Pool.Searched(x.pool, w)), Limbo(x.blocked, x.waiting, x.scheduler), t);
  }

  lemma SearchedSize(pool: Pool.Pool, w: nat)
    requires w < |pool.locals|
    ensures |Pool.Searched(pool, w).locals| == |pool.locals|
  {
  }

  lemma ReturningKeeps(x: Executor, t: TaskId, ok: bool)
    requires PoolInv(x) && CanDo(x, Returning(t, ok))
    ensures PoolInv(x.(life := Apply(x.life, Return(t, ok))))
  {
    hide Inv, Pool.PoolBag, Limbo, BagOk, HeldOk;
    StepKeeps(x.life, Return(t, ok));
    HeldReturned(x.held, |x.pool.locals|, x.life.running, x.life.settling, x.blocked, t);
  }

  lemma SettlingKeeps(x: Executor, t: TaskId)
    requires PoolInv(x) && CanDo(x, Settling(t))
    ensures t in x.priority && PoolInv(DoSettling(x, t))
  {
    hide Inv, Apply, Offered, Pool.PoolBag, HasRoom, Limbo, BagOk, HeldOk;
    StepKeeps(x.life, Settle(t));
    SettleMoves(x.life, t);
    OfferedBag(x.pool, t, x.priority[t]);
    SettledIsNotQueued(x, t);
    LimboMore(x.blocked, x.waiting, x.scheduler, t);
    BagMore(x.life.queued, Pool.PoolBag(x.pool), Limbo(x.blocked, x.waiting, x.scheduler), t);
    HeldSettled(x.held, |x.pool.locals|, x.life.running, x.life.settling, x.blocked, t);
    Plus(x.life.queued);
    Plus(Pool.PoolBag(x.pool));
  }

  lemma SettledIsNotQueued(x: Executor, t: TaskId)
    requires PoolInv(x) && Enabled(x.life, Settle(t))
    ensures t !in Limbo(x.blocked, x.waiting, x.scheduler) && !Waits(x, t)
    ensures x.life.settling[t] == 1 && x.life.running[t] == 0
  {
    hide Pool.PoolBag;
    OncePlaced(x, t);
  }

  lemma EnteringKeeps(x: Executor, t: TaskId)
    requires PoolInv(x) && CanDo(x, Entering(t))
    ensures PoolInv(DoEntering(x, t))
  {
    hide Inv, Entered, Pool.PoolBag, GlobalRoom, Limbo, BagOk, HeldOk;
    EnteredBag(x.pool, t, x.priority[t]);
    OncePlaced(x, t);
    LimboLess(x.blocked, x.waiting, x.scheduler, t);
    var limbo := Limbo(x.blocked - {t}, x.waiting - {t}, if x.scheduler == Some(t) then None else x.scheduler);
    BagShift(x.life.queued, Pool.PoolBag(x.pool), limbo, t);
    HeldEntered(x.held, |x.pool.locals|, x.life.running, x.life.settling, x.blocked, t);
  }

  lemma BagShift(queued: multiset<TaskId>, bag: multiset<TaskId>, limbo: multiset<TaskId>, t: TaskId)
    requires BagOk(queued, bag, limbo + multiset{t})
    ensures BagOk(queued, bag + multiset{t}, limbo)
  {
  }

  lemma ActionKeeps(x: Executor, a: Action)
    requires PoolInv(x) && CanDo(x, a)
    ensures Fits(x, a) && PoolInv(Do(x, a))
  {
    ActionsAreSteps(x, a);
    hide PoolInv, CanDo;
    match a
    case Submission(ds, maxRetries, priority) => SubmissionKeeps(x, ds, maxRetries, priority);
    case Scheduling(t) => SchedulingKeeps(x, t);
    case Searching(w) => SearchingKeeps(x, w);
    case Returning(t, ok) => ReturningKeeps(x, t, ok);
    case Settling(t) => SettlingKeeps(x, t);
    case Entering(t) => EnteringKeeps(x, t);
  }
}
