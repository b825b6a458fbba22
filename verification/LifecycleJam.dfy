/** include/task_engine/task_executor.hpp with the bounded queues of include/task_engine/thread_pool.hpp:
    exactly when the workers can go no further, and how many tasks it takes. */
module LifecycleJam {
  import opened Options
  import opened Tasks
  import opened PriorityLevels
  import opened Lifecycle
  import opened LifecycleRuns
  import opened LifecycleSafety
  import opened LifecyclePool
  import Pool = PoolModel

  // ---- runs

  ghost predicate Possible(x: Executor, actions: seq<Action>)
    decreases |actions|
  {
    actions == [] || (CanDo(x, actions[0]) && Fits(x, actions[0]) && Possible(Do(x, actions[0]), actions[1..]))
  }

  ghost function After(x: Executor, actions: seq<Action>): Executor
    requires Possible(x, actions)
    decreases |actions|
  {
    if actions == [] then x else After(Do(x, actions[0]), actions[1..])
  }

  lemma {:induction false} ActionsKeep(x: Executor, actions: seq<Action>)
    requires PoolInv(x) && Possible(x, actions)
    ensures PoolInv(After(x, actions))
    decreases |actions|
  {
    hide PoolInv, CanDo, Fits, Do;
    if actions != [] {
      ActionKeeps(x, actions[0]);
      ActionsKeep(Do(x, actions[0]), actions[1..]);
    }
  }

  lemma {:induction false} Continued(x: Executor, first: seq<Action>, second: seq<Action>)
    requires Possible(x, first) && Possible(After(x, first), second)
    ensures Possible(x, first + second) && After(x, first + second) == After(After(x, first), second)
    decreases |first|
  {
    hide CanDo, Fits, Do;
    if first == [] {
      assert first + second == second;
    } else {
      assert (first + second)[0] == first[0] && (first + second)[1..] == first[1..] + second;
      Continued(Do(x, first[0]), first[1..], second);
    }
  }

  lemma RunGrows(states: seq<State>, steps: seq<Step>, step: Step)
    requires Run(states, steps) && Enabled(states[|steps|], step)
    ensures |states| == |steps| + 1 && Run(states + [Apply(states[|steps|], step)], steps + [step])
  {
    hide Enabled, Apply;
    var states', steps' := states + [Apply(states[|steps|], step)], steps + [step];
    forall i | 0 <= i < |steps'|
      ensures StepAtIndex(states', steps', i)
    {
      if i < |steps| {
        assert StepAtIndex(states, steps, i);
      }
    }
  }

  lemma {:induction false} ProjectedFrom(x: Executor, actions: seq<Action>, states: seq<State>, steps: seq<Step>)
    returns (states': seq<State>, steps': seq<Step>)
    requires PoolInv(x) && Possible(x, actions) && Run(states, steps) && states[|steps|] == x.life
    ensures Run(states', steps') && states'[|steps'|] == After(x, actions).life
    decreases |actions|
  {
    hide PoolInv, CanDo, Fits, Do, Run, Enabled, Apply;
    if actions == [] {
      return states, steps;
    }
    var a := actions[0];
    ActionsAreSteps(x, a);
    ActionKeeps(x, a);
    var step := LifeStep(x, a);
    if step.Some? {
      RunGrows(states, steps, step.value);
      states', steps' := ProjectedFrom(Do(x, a), actions[1..], states + [Apply(x.life, step.value)],
          steps + [step.value]);
    } else {
      states', steps' := ProjectedFrom(Do(x, a), actions[1..], states, steps);
    }
  }

  /** Whatever executor, pool and waiting threads do together is a run of the executor's relation:
      its safety over runs holds with bounded queues too. */
  lemma ActionsAreRuns(workers: nat, actions: seq<Action>) returns (states: seq<State>, steps: seq<Step>)
    requires workers > 0 && Possible(NewExecutor(workers), actions)
    ensures Run(states, steps) && states[|steps|] == After(NewExecutor(workers), actions).life
  {
    NewIsOk(workers);
    assert Run([INITIAL], []);
    states, steps := ProjectedFrom(NewExecutor(workers), actions, [INITIAL], []);
  }

  // ---- the jam

  ghost predicate BlockedAt(x: Executor, w: nat, t: TaskId) {
    t in x.held && x.held[t] == w && t in x.blocked && t in x.priority && !GlobalRoom(x.pool, x.priority[t])
  }

  ghost predicate WorkerBlocked(x: Executor, w: nat) {
    exists t :: BlockedAt(x, w, t)
  }

  /** Every worker is inside `submit` with a retry, and the global queue it needs is full. */
  ghost predicate Jammed(x: Executor) {
    forall w {:trigger WorkerBlocked(x, w)} :: 0 <= w < |x.pool.locals| ==> WorkerBlocked(x, w)
  }

  /** No worker has a task and there is none to find. */
  ghost predicate Drained(x: Executor) {
    x.held == map[] && Pool.PoolBag(x.pool) == multiset{}
  }

  ghost predicate WorkerAction(x: Executor, a: Action) {
    a.Searching? || a.Returning? || a.Settling? || (a.Entering? && a.id in x.blocked)
  }

  ghost predicate WorkersStuck(x: Executor) {
    forall a :: WorkerAction(x, a) ==> !CanDo(x, a)
  }

  lemma EmptyHasRoom(pool: Pool.Pool, priority: TaskPriority)
    requires Pool.PoolBag(pool) == multiset{}
    ensures GlobalRoom(pool, priority)
  {
    var i := PriorityIndex(priority);
    assert Bag(pool.global) == multiset{} by {
      assert Bag(pool.global) <= Pool.PoolBag(pool);
    }
    BagSize(pool.global);
  }

  lemma HeldIs(x: Executor, t: TaskId)
    requires PoolInv(x)
    ensures t in x.held <==> t in x.life.running || t in x.life.settling || t in x.blocked
    ensures t in x.held ==> x.held[t] < |x.pool.locals| && t in x.life.graph && t in x.priority
    ensures t in x.blocked ==> t !in x.life.running && t !in x.life.settling && t in x.life.queued
    ensures Waits(x, t) ==> t in x.priority
  {
    OncePlaced(x, t);
  }

  lemma OneTaskEach(x: Executor, t: TaskId, u: TaskId)
    requires PoolInv(x) && t in x.held && u in x.held && x.held[t] == x.held[u]
    ensures t == u
  {
  }

  lemma JammedTask(x: Executor, t: TaskId)
    requires PoolInv(x) && Jammed(x) && t in x.held
    ensures BlockedAt(x, x.held[t], t)
  {
    HeldIs(x, t);
    hide PoolInv;
    var w := x.held[t];
    assert WorkerBlocked(x, w);
    var u :| BlockedAt(x, w, u);
    OneTaskEach(x, t, u);
  }

  lemma JamStopsWorkers(x: Executor, a: Action)
    requires PoolInv(x) && Jammed(x) && WorkerAction(x, a)
    ensures !CanDo(x, a)
  {
    hide PoolInv, Pool.Found, Enabled;
    if a.Searching? {
      assert a.worker < |x.pool.locals| ==> WorkerBlocked(x, a.worker);
    } else {
      HeldIs(x, a.id);
      JamStopsTask(x, a.id);
      if a.id in x.held {
        JammedTask(x, a.id);
      }
    }
  }

  lemma JamStopsTask(x: Executor, t: TaskId)
    requires PoolInv(x) && Jammed(x)
    ensures forall ok :: !CanDo(x, Returning(t, ok))
    ensures !CanDo(x, Settling(t))
  {
    hide PoolInv, Jammed;
    HeldIs(x, t);
    if t in x.held {
      JammedTask(x, t);
    }
  }

  lemma DrainStopsWorkers(x: Executor, a: Action)
    requires PoolInv(x) && Drained(x) && WorkerAction(x, a)
    ensures !CanDo(x, a)
  {
    if a.Searching? {
      if a.worker < |x.pool.locals| {
        Pool.SearchFindsNothingIff(x.pool, a.worker);
      }
    } else {
      HeldIs(x, a.id);
    }
  }

  lemma StuckWithTask(x: Executor, t: TaskId)
    requires PoolInv(x) && WorkersStuck(x) && t in x.held
    ensures BlockedAt(x, x.held[t], t)
  {
    HeldIs(x, t);
    hide PoolInv;
    assert WorkerAction(x, Returning(t, true)) && WorkerAction(x, Settling(t));
    assert !CanDo(x, Returning(t, true)) && !CanDo(x, Settling(t));
    assert WorkerAction(x, Entering(t)) ==> !CanDo(x, Entering(t));
  }

  /** A worker that can do nothing is free with nothing to find, or blocked at a full queue. */
  lemma StuckWorker(x: Executor, w: nat)
    requires PoolInv(x) && WorkersStuck(x) && w < |x.pool.locals|
    ensures WorkerBlocked(x, w) || (FreeWorker(x, w) && Pool.PoolBag(x.pool) == multiset{})
  {
    hide PoolInv, Pool.PoolBag, Pool.Found;
    if t :| t in x.held && x.held[t] == w {
      StuckWithTask(x, t);
    } else {
      assert WorkerAction(x, Searching(w));
      assert !CanDo(x, Searching(w)) && FreeWorker(x, w);
      Pool.SearchFindsNothingIff(x.pool, w);
    }
  }

  lemma StuckAndEmptyIsDrained(x: Executor)
    requires PoolInv(x) && WorkersStuck(x) && Pool.PoolBag(x.pool) == multiset{}
    ensures Drained(x)
  {
    forall t
      ensures t !in x.held
    {
      if t in x.held {
        HeldIs(x, t);
        StuckWorker(x, x.held[t]);
        var u :| BlockedAt(x, x.held[t], u);
        EmptyHasRoom(x.pool, x.priority[u]);
      }
    }
  }

  /** The workers can go no further if and only if all of them wait for room in full queues that only
      they could empty, or there is nothing to do. */
  lemma WorkersStuckIff(x: Executor)
    requires PoolInv(x)
    ensures WorkersStuck(x) <==> Jammed(x) || Drained(x)
  {
    hide PoolInv, CanDo;
    if WorkersStuck(x) && !Jammed(x) {
      var w :| 0 <= w < |x.pool.locals| && !WorkerBlocked(x, w);
      StuckWorker(x, w);
      StuckAndEmptyIsDrained(x);
    }
    if Jammed(x) || Drained(x) {
      forall a | WorkerAction(x, a)
        ensures !CanDo(x, a)
      {
        if Jammed(x) {
          JamStopsWorkers(x, a);
        } else {
          DrainStopsWorkers(x, a);
        }
      }
    }
  }

  lemma OfferedGrows(pool: Pool.Pool, t: TaskId, priority: TaskPriority, i: nat)
    requires |pool.locals| > 0 && i < 4
    ensures |Offered(pool, t, priority).global[i]| >= |pool.global[i]|
    ensures |Entered(pool, t, priority).global[i]| >= |pool.global[i]|
    ensures |Offered(pool, t, priority).locals| == |Entered(pool, t, priority).locals| == |pool.locals|
  {
  }

  /** What keeps a worker blocked: its task, and a global queue that has not shrunk. */
  lemma BlockedStays(x: Executor, x': Executor, w: nat)
    requires WorkerBlocked(x, w)
    requires x'.held == x.held && x'.blocked == x.blocked
    requires forall t :: t in x.held && t in x.priority ==> t in x'.priority && x'.priority[t] == x.priority[t]
    requires forall i :: 0 <= i < 4 ==> |x'.pool.global[i]| >= |x.pool.global[i]|
    ensures WorkerBlocked(x', w)
  {
    var t :| BlockedAt(x, w, t);
    assert BlockedAt(x', w, t);
  }

  lemma JamStep(x: Executor, a: Action)
    requires PoolInv(x) && Jammed(x) && CanDo(x, a) && Fits(x, a)
    ensures Jammed(Do(x, a))
    ensures Do(x, a).held == x.held && Do(x, a).blocked == x.blocked && Do(x, a).life.terminal == x.life.terminal
  {
    if WorkerAction(x, a) {
      JamStopsWorkers(x, a);
    }
    OthersOnlyFill(x, a);
    hide PoolInv, CanDo, Fits, Do, WorkerBlocked;
    var x' := Do(x, a);
    forall w | 0 <= w < |x'.pool.locals|
      ensures WorkerBlocked(x', w)
    {
      assert WorkerBlocked(x, w);
      BlockedStays(x, x', w);
    }
  }

  /** What an action of a client or of the scheduler leaves as it was, or only fills up. */
  ghost predicate OnlyFills(x: Executor, x': Executor) {
    && x'.held == x.held && x'.blocked == x.blocked && x'.life.terminal == x.life.terminal
    && |x'.pool.locals| == |x.pool.locals|
    && (forall t :: t in x.held && t in x.priority ==> t in x'.priority && x'.priority[t] == x.priority[t])
    && (forall i :: 0 <= i < 4 ==> |x'.pool.global[i]| >= |x.pool.global[i]|)
  }

  lemma OfferedFills(pool: Pool.Pool, t: TaskId, priority: TaskPriority)
    requires |pool.locals| > 0
    ensures |Offered(pool, t, priority).locals| == |Entered(pool, t, priority).locals| == |pool.locals|
    ensures forall i :: 0 <= i < 4 ==> |Offered(pool, t, priority).global[i]| >= |pool.global[i]|
    ensures forall i :: 0 <= i < 4 ==> |Entered(pool, t, priority).global[i]| >= |pool.global[i]|
  {
    forall i | 0 <= i < 4
      ensures |Offered(pool, t, priority).global[i]| >= |pool.global[i]|
      ensures |Entered(pool, t, priority).global[i]| >= |pool.global[i]|
    {
      OfferedGrows(pool, t, priority, i);
    }
    OfferedGrows(pool, t, priority, 0);
  }

  lemma SubmissionFills(x: Executor, ds: seq<TaskId>, maxRetries: nat, priority: TaskPriority)
    requires PoolInv(x)
    ensures OnlyFills(x, DoSubmission(x, ds, maxRetries, priority))
  {
    hide PoolInv, Inv, Apply, Recorded, Offered, DoSubmission;
    var id := x.life.nextId;
    LifeOk(x);
    NonemptyPool(x);
    SubmitMoves(x.life, ds, maxRetries);
    KeysAgree(x);
    OfferedFills(x.pool, id, priority);
    SubmissionShape(x, ds, maxRetries, priority);
  }

  lemma KeysAgree(x: Executor)
    requires PoolInv(x)
    ensures x.priority.Keys == x.life.graph.Keys
  {
  }

  lemma SchedulingFills(x: Executor, t: TaskId)
    requires PoolInv(x) && CanDo(x, Scheduling(t)) && t in x.priority
    ensures OnlyFills(x, DoScheduling(x, t))
  {
    OfferedFills(x.pool, t, x.priority[t]);
    hide PoolInv, Offered, HasRoom;
  }

  lemma EnteringFills(x: Executor, t: TaskId)
    requires PoolInv(x) && CanDo(x, Entering(t)) && t !in x.blocked
    ensures OnlyFills(x, DoEntering(x, t))
  {
    hide PoolInv, Offered, Entered, GlobalRoom;
    NonemptyPool(x);
    OfferedFills(x.pool, t, x.priority[t]);
    OtherWaiter(x, t);
  }

  lemma OthersOnlyFill(x: Executor, a: Action)
    requires PoolInv(x) && CanDo(x, a) && Fits(x, a) && !WorkerAction(x, a)
    ensures OnlyFills(x, Do(x, a))
  {
    match a
    case Submission(ds, maxRetries, priority) => SubmissionFills(x, ds, maxRetries, priority);
    case Scheduling(t) => SchedulingFills(x, t);
    case Entering(t) => EnteringFills(x, t);
  }

  /** A client's or the scheduler's task is in no worker's hands. */
  lemma OtherWaiter(x: Executor, t: TaskId)
    requires PoolInv(x) && Waits(x, t) && t !in x.blocked
    ensures t !in x.held && x.held - {t} == x.held && x.blocked - {t} == x.blocked
  {
    OncePlaced(x, t);
    HeldIs(x, t);
  }

  /** A jam is for good: no task ever finishes again, whatever is submitted or waits. */
  lemma {:induction false} JamIsForGood(x: Executor, actions: seq<Action>)
    requires PoolInv(x) && Jammed(x) && Possible(x, actions)
    ensures Jammed(After(x, actions)) && After(x, actions).held == x.held
    ensures After(x, actions).life.terminal == x.life.terminal
    decreases |actions|
  {
    hide PoolInv, CanDo, Fits, Do, Jammed;
    if actions != [] {
      JamStep(x, actions[0]);
      ActionKeeps(x, actions[0]);
      JamIsForGood(Do(x, actions[0]), actions[1..]);
    }
  }

  // ---- coming to rest with bounded queues

  /** Nothing can happen any more unless something is submitted. */
  ghost predicate Stopped(x: Executor) {
    forall a :: CanDo(x, a) ==> a.Submission?
  }

  lemma RestStops(x: Executor)
    requires PoolInv(x) && AtRest(x.life)
    ensures Stopped(x)
  {
    hide Inv;
    forall a | CanDo(x, a)
      ensures a.Submission?
    {
      assert x.life.queued == multiset{};
      assert Pool.PoolBag(x.pool) == multiset{} && Limbo(x.blocked, x.waiting, x.scheduler) == multiset{};
      match a
      case Submission(_, _, _) =>
      case Scheduling(_) =>
      case Searching(w) => Pool.SearchFindsNothingIff(x.pool, w);
      case Returning(_, _) =>
      case Settling(_) =>
      case Entering(t) => OncePlaced(x, t);
    }
  }

  lemma NothingWaits(x: Executor, t: TaskId)
    requires PoolInv(x) && Stopped(x) && Drained(x)
    ensures !Waits(x, t)
  {
    HeldIs(x, t);
    hide PoolInv;
    if t in x.priority {
      EmptyHasRoom(x.pool, x.priority[t]);
      assert !CanDo(x, Entering(t));
    }
  }

  lemma NothingPlaced(x: Executor, t: TaskId)
    requires PoolInv(x) && Stopped(x) && Drained(x)
    ensures t !in x.life.queued && t !in x.life.running && t !in x.life.settling
  {
    NothingWaits(x, t);
    HeldIs(x, t);
    OncePlaced(x, t);
  }

  lemma SchedulerFree(x: Executor)
    requires PoolInv(x) && Stopped(x) && Drained(x)
    ensures x.scheduler == None
  {
    if x.scheduler.Some? {
      NothingWaits(x, x.scheduler.value);
    }
  }

  lemma NothingReady(x: Executor, t: TaskId)
    requires Stopped(x) && x.scheduler == None && t in x.life.graph
    ensures !x.life.graph[t].IsReady()
  {
    assert !CanDo(x, Scheduling(t));
  }

  lemma StoppedDrained(x: Executor)
    requires PoolInv(x) && Stopped(x) && !Jammed(x)
    ensures Drained(x)
  {
    hide PoolInv, Jammed, Drained, CanDo;
    assert WorkersStuck(x);
    WorkersStuckIff(x);
  }

  lemma StoppedRests(x: Executor)
    requires PoolInv(x) && Stopped(x) && !Jammed(x)
    ensures AtRest(x.life)
  {
    hide PoolInv, Drained, Jammed, Stopped;
    StoppedDrained(x);
    forall t
      ensures t !in x.life.queued && t !in x.life.running && t !in x.life.settling
    {
      NothingPlaced(x, t);
    }
    assert x.life.queued == multiset{} && x.life.running == multiset{} && x.life.settling == multiset{};
    SchedulerFree(x);
    forall t | t in x.life.graph
      ensures !x.life.graph[t].IsReady()
    {
      NothingReady(x, t);
    }
  }

  /** Unless it is jammed, the executor has stopped exactly when it is at rest. */
  lemma StoppedIff(x: Executor)
    requires PoolInv(x) && !Jammed(x)
    ensures Stopped(x) <==> AtRest(x.life)
  {
    if AtRest(x.life) {
      RestStops(x);
    }
    if Stopped(x) {
      StoppedRests(x);
    }
  }

  lemma JamIsUnfinished(x: Executor)
    requires PoolInv(x) && Jammed(x)
    ensures !AllCompleted(x.life)
  {
    assert WorkerBlocked(x, 0);
    var t :| BlockedAt(x, 0, t);
    HeldIs(x, t);
    InvAt(x.life, t);
  }

  /** Deadlock freedom with bounded queues, exactly: an executor that has stopped has completed
      everything if and only if its workers are not jammed and every task was submitted in time. */
  lemma StoppedIsCompleteIff(x: Executor)
    requires PoolInv(x) && Stopped(x)
    ensures AllCompleted(x.life) <==> !Jammed(x) && AllInTime(x.life)
  {
    if Jammed(x) {
      JamIsUnfinished(x);
    } else {
      StoppedRests(x);
      hide AtRest, AllCompleted;
      RestIsCompletionIff(x.life);
      InTimeEverywhere(x.life);
    }
  }

  lemma InTimeEverywhere(s: State)
    requires Inv(s)
    ensures AllInTime(s) <==> forall t {:trigger InTime(s, t)} :: t in s.graph ==> InTime(s, t)
  {
  }

  /** No submission of the run names a task that has finished or the id it is about to be given. */
  ghost predicate AlwaysTimely(x: Executor, actions: seq<Action>)
    requires Possible(x, actions)
    decreases |actions|
  {
    actions != [] ==>
      && (actions[0].Submission? ==> Timely(x.life, actions[0].dependencies))
      && AlwaysTimely(Do(x, actions[0]), actions[1..])
  }

  lemma ActionInTimeIff(x: Executor, a: Action)
    requires PoolInv(x) && CanDo(x, a) && Fits(x, a)
    ensures AllInTime(Do(x, a).life) <==> AllInTime(x.life) && (a.Submission? ==> Timely(x.life, a.dependencies))
  {
    LifeOk(x);
    ActionsAreSteps(x, a);
    hide PoolInv, Inv, CanDo, Fits, Do, AllInTime, Timely, Enabled, Apply;
    match LifeStep(x, a)
    case Some(Submit(ds, maxRetries)) => SubmitInTimeIff(x.life, ds, maxRetries);
    case Some(step) => OtherInTimeIff(x.life, step);
    case None =>
  }

  lemma {:induction false} ActionsInTimeIff(x: Executor, actions: seq<Action>)
    requires PoolInv(x) && Possible(x, actions)
    ensures AllInTime(After(x, actions).life) <==> AllInTime(x.life) && AlwaysTimely(x, actions)
    decreases |actions|
  {
    hide PoolInv, CanDo, Fits, Do, AllInTime, Timely;
    if actions != [] {
      ActionInTimeIff(x, actions[0]);
      ActionKeeps(x, actions[0]);
      ActionsInTimeIff(Do(x, actions[0]), actions[1..]);
    }
  }

  /** Whole runs: an executor that has stopped has completed everything if and only if its workers are
      not jammed and no submission named a task already finished or its own future id. */
  lemma StoppedRunCompletesIff(workers: nat, actions: seq<Action>)
    requires workers > 0 && Possible(NewExecutor(workers), actions) && Stopped(After(NewExecutor(workers), actions))
    ensures var x := After(NewExecutor(workers), actions);
            AllCompleted(x.life) <==> !Jammed(x) && AlwaysTimely(NewExecutor(workers), actions)
  {
    hide PoolInv, Stopped, AllCompleted, Jammed, AlwaysTimely;
    NewIsOk(workers);
    ActionsKeep(NewExecutor(workers), actions);
    ActionsInTimeIff(NewExecutor(workers), actions);
    StoppedIsCompleteIff(After(NewExecutor(workers), actions));
  }

  // ---- termination with bounded queues

  /** Two for every step the tasks have before them, and one for every task that waits for room. */
  ghost function Load(x: Executor): int {
    2 * Measure(x.life) + |Limbo(x.blocked, x.waiting, x.scheduler)|
  }

  lemma NonemptyPool(x: Executor)
    requires PoolInv(x)
    ensures |x.pool.locals| > 0
  {
  }

  lemma SchedulingUsesUpLoad(x: Executor, t: TaskId)
    requires PoolInv(x) && CanDo(x, Scheduling(t)) && t in x.priority
    ensures Load(DoScheduling(x, t)) < Load(x)
  {
    TickedIsNotQueued(x, t);
    ProductiveStepsUseUpMeasure(x.life, Tick(t)) by {
      LifeOk(x);
    }
    LimboMore(x.blocked, x.waiting, x.scheduler, t);
    hide PoolInv, Apply, Measure, Offered, HasRoom, Limbo;
  }

  lemma LifeOk(x: Executor)
    requires PoolInv(x)
    ensures Inv(x.life)
  {
  }

  lemma SettlingUsesUpLoad(x: Executor, t: TaskId)
    requires PoolInv(x) && CanDo(x, Settling(t)) && t in x.priority
    ensures Load(DoSettling(x, t)) < Load(x)
  {
    LifeOk(x);
    NonemptyPool(x);
    SettledIsNotQueued(x, t);
    hide PoolInv, Apply, Measure, Limbo, Inv, DoSettling, Enabled;
    SettlingShape(x, t);
    ProductiveStepsUseUpMeasure(x.life, Settle(t));
    LimboMore(x.blocked, x.waiting, x.scheduler, t);
  }

  lemma EnteringUsesUpLoad(x: Executor, t: TaskId)
    requires PoolInv(x) && CanDo(x, Entering(t))
    ensures Load(DoEntering(x, t)) < Load(x)
  {
    OncePlaced(x, t);
    hide PoolInv, Measure, Entered, GlobalRoom, Limbo;
    LimboLess(x.blocked, x.waiting, x.scheduler, t);
  }

  lemma OthersUseUpLoad(x: Executor, a: Action)
    requires PoolInv(x) && CanDo(x, a) && Fits(x, a) && !a.Submission?
    ensures Load(Do(x, a)) < Load(x)
  {
    LifeOk(x);
    hide PoolInv, Inv, Apply, Measure, Limbo, Pool.Found, Pool.Searched;
    match a
    case Scheduling(t) => SchedulingUsesUpLoad(x, t);
    case Searching(w) => ProductiveStepsUseUpMeasure(x.life, Start(Pool.Found(x.pool, w).value));
    case Returning(t, ok) => ProductiveStepsUseUpMeasure(x.life, Return(t, ok));
    case Settling(t) => SettlingUsesUpLoad(x, t);
    case Entering(t) => EnteringUsesUpLoad(x, t);
  }

  lemma SubmissionLimbo(x: Executor, ds: seq<TaskId>, maxRetries: nat, priority: TaskPriority)
    requires PoolInv(x)
    ensures var x' := DoSubmission(x, ds, maxRetries, priority);
            && x'.life == Apply(x.life, Submit(ds, maxRetries))
            && |Limbo(x'.blocked, x'.waiting, x'.scheduler)| <= |Limbo(x.blocked, x.waiting, x.scheduler)| + 1
  {
    NewcomerWaitsNowhere(x);
    hide PoolInv, Apply, DoSubmission, Limbo;
    SubmissionShape(x, ds, maxRetries, priority);
    LimboMore(x.blocked, x.waiting, x.scheduler, x.life.nextId);
  }

  lemma SubmissionsGrantLoad(x: Executor, ds: seq<TaskId>, maxRetries: nat, priority: TaskPriority)
    requires PoolInv(x)
    ensures Load(DoSubmission(x, ds, maxRetries, priority)) <= Load(x) + 8 * (maxRetries + 1) + 1
  {
    LifeOk(x);
    SubmissionLimbo(x, ds, maxRetries, priority);
    hide PoolInv, Inv, Apply, Measure, Limbo, DoSubmission;
    SubmissionGrantsMeasure(x.life, ds, maxRetries);
  }

  ghost function Others(actions: seq<Action>): nat {
    if actions == [] then 0 else (if actions[0].Submission? then 0 else 1) + Others(actions[1..])
  }

  ghost function Allowance(actions: seq<Action>): nat {
    if actions == [] then 0 else
      (if actions[0].Submission? then 8 * (actions[0].maxRetries + 1) + 1 else 0) + Allowance(actions[1..])
  }

  /** Termination with bounded queues: apart from submissions, a run does no more than its
      submissions allow for. */
  lemma {:induction false} PoolComesToRest(x: Executor, actions: seq<Action>)
    requires PoolInv(x) && Possible(x, actions)
    ensures Others(actions) + Load(After(x, actions)) <= Load(x) + Allowance(actions)
    ensures Load(After(x, actions)) >= 0
    decreases |actions|
  {
    hide Inv, CanDo, Fits, Do, Measure, Limbo, BagOk, HeldOk;
    if actions == [] {
      MeasureNonNegative(x.life);
    } else {
      var a := actions[0];
      ActionKeeps(x, a);
      PoolComesToRest(Do(x, a), actions[1..]);
      if a.Submission? {
        SubmissionsGrantLoad(x, a.dependencies, a.maxRetries, a.priority);
        assert Do(x, a) == DoSubmission(x, a.dependencies, a.maxRetries, a.priority) by {
          DoneSubmission(x, a);
        }
      } else {
        OthersUseUpLoad(x, a);
      }
    }
  }

  lemma DoneSubmission(x: Executor, a: Action)
    requires Fits(x, a) && a.Submission?
    ensures Do(x, a) == DoSubmission(x, a.dependencies, a.maxRetries, a.priority)
  {
  }
}
