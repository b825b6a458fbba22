/** The other side of LifecycleCrowd: up to four workers, one for each priority, can be jammed by as
    many tasks of each priority as it takes to fill its queues and need one place more. */
module LifecycleJamming {
  import opened Options
  import opened Arithmetic
  import opened Sequences
  import opened Tasks
  import opened PriorityLevels
  import opened Lifecycle
  import opened LifecycleRuns
  import opened LifecycleSafety
  import opened LifecyclePool
  import opened LifecycleJam
  import opened LifecycleCrowd
  import Pool = PoolModel

  // ---- single actions

  /** One action leads from x to x'. */
  ghost predicate Becomes(x: Executor, a: Action, x': Executor) {
    CanDo(x, a) && Fits(x, a) && x' == Do(x, a)
  }

  lemma Acted(x: Executor, a: Action) returns (x': Executor)
    requires PoolInv(x) && CanDo(x, a)
    ensures Becomes(x, a, x') && PoolInv(x')
  {
    ActionKeeps(x, a);
    x' := Do(x, a);
  }

  lemma Prepended(x: Executor, a: Action, x': Executor, rest: seq<Action>)
    requires Becomes(x, a, x') && Possible(x', rest)
    ensures Possible(x, [a] + rest) && After(x, [a] + rest) == After(x', rest)
  {
    hide CanDo, Fits, Do;
    assert ([a] + rest)[1..] == rest;
  }

  lemma NoActions(x: Executor)
    ensures Possible(x, []) && After(x, []) == x
  {
  }

  lemma ReadyWithoutDependencies(x: Executor, maxRetries: nat)
    requires PoolInv(x)
    ensures ReadyAtOnce(x, [], maxRetries)
  {
    Unused(x.life);
    RecordedAt(x.life, [], maxRetries);
    hide PoolInv, Recorded;
  }

  /** A submission without dependencies while there is room. */
  ghost predicate Offers(x: Executor, maxRetries: nat, p: TaskPriority, x': Executor) {
    && |x.pool.locals| > 0
    && x'.life == Apply(x.life, Submit([], maxRetries)) && x'.priority == x.priority[x.life.nextId := p]
    && x'.pool == Offered(x.pool, x.life.nextId, p)
    && x'.held == x.held && x'.blocked == x.blocked
  }

  lemma Submitted(x: Executor, maxRetries: nat, p: TaskPriority) returns (x': Executor)
    requires PoolInv(x)
    ensures Becomes(x, Submission([], maxRetries, p), x') && PoolInv(x') && Offers(x, maxRetries, p, x')
  {
    NonemptyPool(x);
    ReadyWithoutDependencies(x, maxRetries);
    hide PoolInv, Apply, Offered, HasRoom, ReadyAtOnce;
    x' := Acted(x, Submission([], maxRetries, p));
  }

  lemma OffersParts(x: Executor, maxRetries: nat, p: TaskPriority, x': Executor)
    requires Offers(x, maxRetries, p, x')
    ensures |x.pool.locals| > 0 && x'.pool == Offered(x.pool, x.life.nextId, p)
    ensures x'.priority == x.priority[x.life.nextId := p] && x'.held == x.held && x'.blocked == x.blocked
  {
  }

  lemma SearchDone(x: Executor, w: nat, x': Executor)
    requires Becomes(x, Searching(w), x')
    ensures var t := Pool.Found(x.pool, w).value;
            && Enabled(x.life, Start(t)) && x'.life == Apply(x.life, Start(t)) && x'.pool == Pool.Searched(x.pool, w)
            && x'.held == x.held[t := w] && x'.priority == x.priority && x'.blocked == x.blocked
  {
  }

  lemma ReturnDone(x: Executor, t: TaskId, ok: bool, x': Executor)
    requires Becomes(x, Returning(t, ok), x')
    ensures Enabled(x.life, Return(t, ok)) && x' == x.(life := Apply(x.life, Return(t, ok)))
  {
  }

  lemma SettleDone(x: Executor, t: TaskId, x': Executor)
    requires Becomes(x, Settling(t), x') && t in x.life.graph && t in x.priority && Retries(x, t)
    requires |x.pool.locals| > 0 && !HasRoom(x.pool, x.priority[t])
    ensures Enabled(x.life, Settle(t)) && x'.life == Apply(x.life, Settle(t)) && x'.held == x.held
    ensures x'.blocked == x.blocked + {t} && x'.priority == x.priority && x'.pool == Offered(x.pool, t, x.priority[t])
  {
    hide Apply;
  }

  // ---- the tasks in the workers' hands

  /** Worker v is at the first attempt of task v + 1, which may be tried again. */
  ghost predicate InHand(x: Executor, v: nat)
    requires v < 4
  {
    var t := v + 1;
    && t in x.held && x.held[t] == v && t in x.priority && x.priority[t] == Nth(v)
    && t in x.life.graph && StageOf(x.life, t) == Executing
    && x.life.graph[t].attempts == 1 && x.life.graph[t].maxRetries == 1
  }

  /** Worker v is inside `submit` with that task. */
  ghost predicate InSubmit(x: Executor, v: nat)
    requires v < 4
  {
    var t := v + 1;
    t in x.held && x.held[t] == v && t in x.priority && x.priority[t] == Nth(v) && t in x.blocked
  }

  lemma HandKept(x: Executor, x': Executor, step: Step, v: nat)
    requires v < 4 && InHand(x, v) && Inv(x.life)
    requires Enabled(x.life, step) && x'.life == Apply(x.life, step) && (step.Submit? || step.id != v + 1)
    requires v + 1 in x'.held && x'.held[v + 1] == v
    requires v + 1 in x'.priority && x'.priority[v + 1] == x.priority[v + 1]
    ensures InHand(x', v)
  {
    hide Inv, Enabled, Apply;
    StepAside(x.life, step, v + 1);
  }

  /** A task that is submitted goes to a worker at once. */
  lemma FirstStart(s: State, s1: State)
    requires Inv(s) && s1 == Apply(s, Submit([], 1)) && Enabled(s1, Start(s.nextId))
    ensures var s2 := Apply(s1, Start(s.nextId));
            && s.nextId in s2.graph && StageOf(s2, s.nextId) == Executing
            && s2.graph[s.nextId].attempts == 1 && s2.graph[s.nextId].maxRetries == 1
  {
    hide Inv, Apply, Enabled;
    StepKeeps(s, Submit([], 1));
    NewTaskAt(s);
    StartedAt(s1, s.nextId);
  }

  lemma NewTaskAt(s: State)
    requires Inv(s)
    ensures var s1 := Apply(s, Submit([], 1));
            s.nextId in s1.graph && s1.graph[s.nextId].attempts == 0 && s1.graph[s.nextId].maxRetries == 1
  {
    RecordedAt(s, [], 1);
    hide Inv, Base, Recorded;
  }

  lemma StartedAt(s: State, t: TaskId)
    requires Inv(s) && Enabled(s, Start(t))
    ensures var s' := Apply(s, Start(t));
            && t in s'.graph && StageOf(s', t) == Executing
            && s'.graph[t].attempts == s.graph[t].attempts + 1 && s'.graph[t].maxRetries == s.graph[t].maxRetries
  {
    InvAt(s, t);
    hide Inv, Base;
  }

  lemma FirstFailure(s: State, t: TaskId)
    requires Inv(s) && t in s.graph && StageOf(s, t) == Executing && s.graph[t].attempts == 1
             && s.graph[t].maxRetries == 1
    ensures Enabled(s, Return(t, false))
    ensures var s' := Apply(s, Return(t, false));
            Enabled(s', Settle(t)) && s'.graph[t].status == Failed && s'.graph[t].CanRetry()
  {
    InvAt(s, t);
  }

  // ---- how many tasks of each priority there are

  ghost function Asked(priority: map<TaskId, TaskPriority>, p: TaskPriority): set<TaskId> {
    set t | t in priority && priority[t] == p
  }

  lemma AskedMore(priority: map<TaskId, TaskPriority>, t: TaskId, p: TaskPriority, q: TaskPriority)
    requires t !in priority
    ensures |Asked(priority[t := p], q)| == |Asked(priority, q)| + if p == q then 1 else 0
  {
    if p == q {
      assert Asked(priority[t := p], q) == Asked(priority, q) + {t};
    } else {
      assert Asked(priority[t := p], q) == Asked(priority, q);
    }
  }

  lemma AskedGrows(priority: map<TaskId, TaskPriority>, priority': map<TaskId, TaskPriority>, p: TaskPriority)
    requires Extends(priority, priority')
    ensures |Asked(priority, p)| <= |Asked(priority', p)|
  {
    SubsetSize(Asked(priority, p), Asked(priority', p));
  }

  lemma {:induction false} PrioritiesStay(x: Executor, actions: seq<Action>)
    requires PoolInv(x) && Sorted(x.pool, x.priority) && Possible(x, actions)
    ensures Extends(x.priority, After(x, actions).priority)
    decreases |actions|
  {
    hide PoolInv, Sorted, CanDo, Fits, Do;
    if actions != [] {
      ActionKeeps(x, actions[0]);
      ActionSorts(x, actions[0]);
      PrioritiesStay(Do(x, actions[0]), actions[1..]);
    }
  }

  /** What holds of the number of tasks ever submitted holds of the unfinished ones all along. */
  lemma {:induction false} AskedBounds(x: Executor, actions: seq<Action>, bound: nat)
    requires PoolInv(x) && Sorted(x.pool, x.priority) && Possible(x, actions)
    requires forall p :: |Asked(After(x, actions).priority, p)| < bound
    ensures StaysBelow(x, actions, bound)
    decreases |actions|
  {
    hide PoolInv, Sorted, CanDo, Fits, Do, Asked, Unfinished;
    if actions != [] {
      var x1 := Do(x, actions[0]);
      ActionKeeps(x, actions[0]);
      ActionSorts(x, actions[0]);
      PrioritiesStay(x1, actions[1..]);
      forall p
        ensures |Unfinished(x1, p)| < bound
      {
        AskedGrows(x1.priority, After(x, actions).priority, p);
        UnfinishedWasAsked(x1, p);
      }
      assert After(x, actions) == After(x1, actions[1..]);
      AskedBounds(x1, actions[1..], bound);
    }
  }

  lemma UnfinishedWasAsked(x: Executor, p: TaskPriority)
    ensures |Unfinished(x, p)| <= |Asked(x.priority, p)|
  {
    SubsetSize(Unfinished(x, p), Asked(x.priority, p));
  }

  /** Of the priorities of workers below w there are more + 1 tasks, of the others below n more. */
  ghost predicate AskedAre(x: Executor, n: nat, more: nat, w: nat)
    requires n <= 4
  {
    forall u {:trigger Nth(u)} :: 0 <= u < 4 ==> |Asked(x.priority, Nth(u))| == Due(n, more, w, u)
  }

  /** How often it was u's turn among n after `rounds` rounds and w turns of the next one. */
  function Due(n: nat, rounds: nat, w: nat, u: nat): nat {
    if u >= n then 0 else if u < w then rounds + 1 else rounds
  }

  lemma AskedNext(x: Executor, x': Executor, n: nat, rounds: nat, w: nat, t: TaskId)
    requires w < n <= 4 && AskedAre(x, n, rounds, w) && t !in x.priority && x'.priority == x.priority[t := Nth(w)]
    ensures AskedAre(x', n, rounds, w + 1)
  {
    hide Asked;
    forall u {:trigger Nth(u)} | 0 <= u < 4
      ensures |Asked(x'.priority, Nth(u))| == Due(n, rounds, w + 1, u)
    {
      AskedMore(x.priority, t, Nth(w), Nth(u));
      PriorityIndexInjective(Nth(w), Nth(u));
    }
  }

  lemma AskedRound(x: Executor, n: nat, rounds: nat)
    requires n <= 4 && AskedAre(x, n, rounds, n)
    ensures AskedAre(x, n, rounds + 1, 0)
  {
  }

  // ---- first, every worker takes a task

  lemma NextTarget(pool: Pool.Pool)
    requires |pool.locals| > 0
    ensures var n, pool' := |pool.locals|, pool.(nextWorker := pool.nextWorker + 1);
            Pool.Target(pool') == if Pool.Target(pool) + 1 == n then 0 else Pool.Target(pool) + 1
  {
    WrapNext(pool.nextWorker, |pool.locals|);
  }

  function NoTasks(n: nat, next: nat): Pool.Pool {
    Pool.EmptyPool(n).(nextWorker := next)
  }

  ghost predicate Starting(x: Executor, n: nat, v: nat) {
    && v <= n <= 4 && PoolInv(x) && x.pool == NoTasks(n, v)
    && (forall u {:trigger InHand(x, u)} :: 0 <= u < v ==> InHand(x, u))
    && (forall t :: t in x.held ==> x.held[t] < v)
    && x.blocked == {} && x.life.nextId == v + 1 && AskedAre(x, n, 0, v) && AllInTime(x.life)
  }

  /** An empty set of levels with one task, and the search that takes it. */
  lemma OneInside(n: nat, v: nat, t: TaskId)
    requires v < n <= 4
    ensures Pool.Target(NoTasks(n, v)) == v && HasRoom(NoTasks(n, v), Nth(v))
    ensures var pool := Offered(NoTasks(n, v), t, Nth(v));
            && |pool.locals| == n && Pool.Found(pool, v) == Some(t) && Pool.Searched(pool, v) == NoTasks(n, v + 1)
  {
    WrapSmall(v, n);
    var none: Levels := [[], [], [], []];
    var one: Levels := Put(none, Nth(v), t);
    var pool := Offered(NoTasks(n, v), t, Nth(v));
    assert NoTasks(n, v).locals[v] == none;
    assert pool == NoTasks(n, v + 1).(locals := NoTasks(n, v).locals[v := one]);
    OneTaken(v, t);
    assert pool.locals[v] == one;
    assert NoTasks(n, v).locals[v := one][v := none] == NoTasks(n, v).locals;
  }

  lemma OneTaken(v: nat, t: TaskId)
    requires v < 4
    ensures var none: Levels, one: Levels := [[], [], [], []], Put([[], [], [], []], Nth(v), t);
            Taken(one) == Some(t) && Left(one) == none
  {
    var one: Levels := Put([[], [], [], []], Nth(v), t);
    assert one[v] == [t] && forall u :: 0 <= u < 4 && u != v ==> one[u] == [];
    assert HighestBelow(one, 4) == Some(v);
    assert one[v][1..] == [];
    assert Left(one) == one[v := []];
  }

  /** Between its submission and its start. */
  ghost predicate Passing(x: Executor, x1: Executor, n: nat, v: nat) {
    && v < n <= 4 && Starting(x, n, v) && Offers(x, 1, Nth(v), x1) && PoolInv(x1)
    && x1.pool == Offered(NoTasks(n, v), v + 1, Nth(v))
    && AskedAre(x1, n, 0, v + 1) && AllInTime(x1.life) && x1.life.nextId == v + 2
  }

  lemma FirstSubmission(x: Executor, n: nat, v: nat) returns (x1: Executor)
    requires Starting(x, n, v) && v < n
    ensures Becomes(x, Submission([], 1, Nth(v)), x1) && Passing(x, x1, n, v)
  {
    hide PoolInv, Inv, Apply, Offered, Becomes, InHand, AskedAre, AllInTime, NoTasks, Offers;
    LifeOk(x);
    NewcomerHasNone(x);
    x1 := Submitted(x, 1, Nth(v));
    OffersParts(x, 1, Nth(v), x1);
    SubmissionDone(x, 1, Nth(v), x1);
    AskedNext(x, x1, n, 0, v, v + 1);
  }

  lemma FirstSearch(x: Executor, x1: Executor, n: nat, v: nat) returns (x2: Executor)
    requires Passing(x, x1, n, v)
    ensures Becomes(x1, Searching(v), x2) && PoolInv(x2) && x2.pool == NoTasks(n, v + 1)
    ensures Enabled(x1.life, Start(v + 1)) && x2.life == Apply(x1.life, Start(v + 1))
    ensures x2.held == x1.held[v + 1 := v] && x2.priority == x1.priority && x2.blocked == x1.blocked
  {
    hide PoolInv, Apply, Enabled, Pool.Found, Pool.Searched, Offered, Becomes, InHand, AskedAre, AllInTime, NoTasks;
    OneInside(n, v, v + 1);
    FreeToSearch(x1, v, v + 1);
    x2 := Acted(x1, Searching(v));
    SearchDone(x1, v, x2);
  }

  lemma TakenAtOnce(x: Executor, n: nat, v: nat) returns (x1: Executor, x2: Executor)
    requires Starting(x, n, v) && v < n
    ensures Becomes(x, Submission([], 1, Nth(v)), x1) && Becomes(x1, Searching(v), x2)
    ensures Starting(x2, n, v + 1)
  {
    hide PoolInv, Inv, Apply, Enabled, Offered, Becomes, InHand, AskedAre, AllInTime, NoTasks;
    x1 := FirstSubmission(x, n, v);
    x2 := FirstSearch(x, x1, n, v);
    LifeOk(x);
    LifeOk(x1);
    StartedInTime(x1.life, v + 1);
    StartedInHand(x, x1, x2, v);
    AskedSame(x1, x2, n, 0, v + 1);
    forall u | 0 <= u < v
      ensures InHand(x2, u)
    {
      StillInHand(x, x1, x2, v, u);
    }
  }

  /** What a submission does to the counts. */
  lemma SubmissionDone(x: Executor, maxRetries: nat, p: TaskPriority, x': Executor)
    requires PoolInv(x) && Offers(x, maxRetries, p, x')
    ensures Inv(x.life) && x'.life.nextId == x.life.nextId + 1
    ensures AllInTime(x.life) ==> AllInTime(x'.life)
  {
    hide PoolInv, Inv, Apply, AllInTime, Offered;
    LifeOk(x);
    StepExtends(x.life, Submit([], maxRetries));
    SubmitInTimeIff(x.life, [], maxRetries);
  }

  lemma FreeToSearch(x: Executor, v: nat, t: TaskId)
    requires v < |x.pool.locals| && Pool.Found(x.pool, v) == Some(t) && forall u :: u in x.held ==> x.held[u] < v
    ensures CanDo(x, Searching(v))
  {
  }

  lemma StartedInTime(s: State, t: TaskId)
    requires Inv(s) && Enabled(s, Start(t)) && AllInTime(s)
    ensures AllInTime(Apply(s, Start(t))) && Apply(s, Start(t)).nextId == s.nextId
  {
    hide Inv, Enabled, Apply, AllInTime;
    OtherInTimeIff(s, Start(t));
    StepExtends(s, Start(t));
  }

  lemma StartedInHand(x: Executor, x1: Executor, x2: Executor, v: nat)
    requires v < 4 && Inv(x.life) && x.life.nextId == v + 1 && Offers(x, 1, Nth(v), x1)
    requires Enabled(x1.life, Start(v + 1)) && x2.life == Apply(x1.life, Start(v + 1))
    requires x2.held == x1.held[v + 1 := v] && x2.priority == x1.priority
    ensures InHand(x2, v)
  {
    hide Inv, Apply, Enabled, Offered;
    FirstStart(x.life, x1.life);
  }

  lemma AskedSame(x: Executor, x': Executor, n: nat, rounds: nat, w: nat)
    requires n <= 4 && AskedAre(x, n, rounds, w) && x'.priority == x.priority
    ensures AskedAre(x', n, rounds, w)
  {
    hide Asked;
  }

  lemma StillInHand(x: Executor, x1: Executor, x2: Executor, v: nat, u: nat)
    requires u < v < 4 && InHand(x, u) && Inv(x.life) && x.life.nextId == v + 1 && Offers(x, 1, Nth(v), x1)
             && Inv(x1.life)
    requires Enabled(x1.life, Start(v + 1)) && x2.life == Apply(x1.life, Start(v + 1))
    requires x2.held == x1.held[v + 1 := v] && x2.priority == x1.priority
    ensures InHand(x2, u)
  {
    HandOffered(x, x1, 1, Nth(v), u);
    hide Inv, Apply, Enabled, Offered, Offers;
    HandHeld(x, x1, u);
    HandKept(x1, x2, Start(v + 1), u);
  }

  lemma HandHeld(x: Executor, x1: Executor, u: nat)
    requires u < 4 && InHand(x1, u)
    ensures u + 1 in x1.held && x1.held[u + 1] == u && u + 1 in x1.priority
  {
  }

  lemma HandOffered(x: Executor, x': Executor, maxRetries: nat, p: TaskPriority, u: nat)
    requires u < 4 && InHand(x, u) && Inv(x.life) && Offers(x, maxRetries, p, x')
    ensures InHand(x', u)
  {
    hide Inv, Apply, Offered;
    assert u + 1 != x.life.nextId by {
      InHandIsKnown(x, u);
    }
    HandKept(x, x', Submit([], maxRetries), u);
  }

  lemma InHandIsKnown(x: Executor, u: nat)
    requires u < 4 && InHand(x, u) && Inv(x.life)
    ensures u + 1 != x.life.nextId
  {
    Unused(x.life);
  }

  // ---- then each priority's queues are filled in turn

  /** Of k tasks for level u the first are in worker u's queue, the others in the global one. */
  predicate Filled(pool: Pool.Pool, u: nat, k: nat)
    requires u < 4 && u < |pool.locals|
  {
    var few := Min(Pool.LOCAL_CAPACITY - 1, k);
    |pool.locals[u][u]| == few && |pool.global[u]| == k - few
  }

  ghost predicate Filling(x: Executor, n: nat, rounds: nat, w: nat) {
    && w < n <= 4 && rounds <= QUEUED && (rounds == QUEUED ==> w == 0)
    && PoolInv(x) && |x.pool.locals| == n && Pool.Target(x.pool) == w && x.blocked == {}
    && (forall u {:trigger InHand(x, u)} :: 0 <= u < n ==> InHand(x, u))
    && (forall u {:trigger Due(n, rounds, w, u)} :: 0 <= u < n ==> Filled(x.pool, u, Due(n, rounds, w, u)))
    && AskedAre(x, n, rounds + 1, w) && AllInTime(x.life)
  }

  lemma FillingBegins(x: Executor, n: nat)
    requires Starting(x, n, n) && n > 0
    ensures Filling(x, n, 0, 0)
  {
    AskedRound(x, n, 0);
    WrapSum(0, n, n);
    hide PoolInv, InHand, AskedAre, AllInTime;
  }

  lemma OfferedFilled(pool: Pool.Pool, n: nat, t: TaskId, w: nat, k: nat)
    requires |pool.locals| == n && w < n <= 4 && Pool.Target(pool) == w && Filled(pool, w, k) && k < QUEUED
    ensures var pool' := Offered(pool, t, Nth(w));
            && |pool'.locals| == n && Pool.Target(pool') == (if w + 1 == n then 0 else w + 1) && Filled(pool', w, k + 1)
            && forall u, j: nat :: 0 <= u < n && u != w && Filled(pool, u, j) ==> Filled(pool', u, j)
  {
    NextTarget(pool);
  }

  /** The next round begins after worker n - 1's turn. */
  function NextRound(n: nat, rounds: nat, w: nat): nat { if w + 1 == n then rounds + 1 else rounds }

  function NextTurn(n: nat, w: nat): nat { if w + 1 == n then 0 else w + 1 }

  lemma FilledNext(pool: Pool.Pool, pool': Pool.Pool, n: nat, rounds: nat, w: nat)
    requires |pool.locals| == |pool'.locals| == n && w < n <= 4
    requires forall u {:trigger Due(n, rounds, w, u)} :: 0 <= u < n ==> Filled(pool, u, Due(n, rounds, w, u))
    requires Filled(pool', w, Due(n, rounds, w, w) + 1)
    requires forall u, j: nat :: 0 <= u < n && u != w && Filled(pool, u, j) ==> Filled(pool', u, j)
    ensures forall u {:trigger Due(n, NextRound(n, rounds, w), NextTurn(n, w), u)} ::
              0 <= u < n ==> Filled(pool', u, Due(n, NextRound(n, rounds, w), NextTurn(n, w), u))
  {
    hide Filled;
    forall u {:trigger Due(n, NextRound(n, rounds, w), NextTurn(n, w), u)} | 0 <= u < n
      ensures Filled(pool', u, Due(n, NextRound(n, rounds, w), NextTurn(n, w), u))
    {
      assert Filled(pool, u, Due(n, rounds, w, u));
    }
  }

  lemma FilledByOffer(x: Executor, x': Executor, n: nat, rounds: nat, w: nat)
    requires Filling(x, n, rounds, w) && rounds < QUEUED && x'.pool == Offered(x.pool, x.life.nextId, Nth(w))
    ensures |x'.pool.locals| == n && Pool.Target(x'.pool) == NextTurn(n, w)
    ensures forall u {:trigger Due(n, NextRound(n, rounds, w), NextTurn(n, w), u)} ::
              0 <= u < n ==> Filled(x'.pool, u, Due(n, NextRound(n, rounds, w), NextTurn(n, w), u))
  {
    hide PoolInv, Apply, Offered, InHand, Filled, AskedAre, AllInTime;
    assert Filled(x.pool, w, Due(n, rounds, w, w));
    OfferedFilled(x.pool, n, x.life.nextId, w, Due(n, rounds, w, w));
    FilledNext(x.pool, x'.pool, n, rounds, w);
  }

  lemma AskedTurn(x: Executor, n: nat, rounds: nat, w: nat)
    requires w < n <= 4 && AskedAre(x, n, rounds + 1, w + 1)
    ensures AskedAre(x, n, NextRound(n, rounds, w) + 1, NextTurn(n, w))
  {
    hide AskedAre;
    if w + 1 == n {
      AskedRound(x, n, rounds + 1);
    }
  }

  lemma FillOne(x: Executor, n: nat, rounds: nat, w: nat) returns (x': Executor)
    requires Filling(x, n, rounds, w) && rounds < QUEUED
    ensures Becomes(x, Submission([], 0, Nth(w)), x') && Filling(x', n, NextRound(n, rounds, w), NextTurn(n, w))
  {
    hide PoolInv, Inv, Apply, Offered, Becomes, InHand, Filled, AskedAre, AllInTime, Due, Offers;
    LifeOk(x);
    NewcomerHasNone(x);
    x' := Submitted(x, 0, Nth(w));
    OffersParts(x, 0, Nth(w), x');
    FilledByOffer(x, x', n, rounds, w);
    SubmissionDone(x, 0, Nth(w), x');
    AskedNext(x, x', n, rounds + 1, w, x.life.nextId);
    AskedTurn(x', n, rounds, w);
    forall u | 0 <= u < n
      ensures InHand(x', u)
    {
      HandOffered(x, x', 0, Nth(w), u);
    }
  }

  lemma {:induction false} Fill(x: Executor, n: nat, rounds: nat, w: nat) returns (actions: seq<Action>)
    requires Filling(x, n, rounds, w)
    ensures Possible(x, actions) && Filling(After(x, actions), n, QUEUED, 0)
    decreases QUEUED - rounds, n - w
  {
    hide Filling, Becomes, Possible, After;
    FillingBound(x, n, rounds, w);
    if rounds < QUEUED {
      var x' := FillOne(x, n, rounds, w);
      var rest := Fill(x', n, NextRound(n, rounds, w), NextTurn(n, w));
      actions := [Submission([], 0, Nth(w))] + rest;
      Prepended(x, Submission([], 0, Nth(w)), x', rest);
    } else {
      actions := [];
      NoActions(x);
    }
  }

  lemma FillingBound(x: Executor, n: nat, rounds: nat, w: nat)
    requires Filling(x, n, rounds, w)
    ensures w < n <= 4 && rounds <= QUEUED && (rounds == QUEUED ==> w == 0)
  {
  }

  // ---- and every attempt fails

  ghost predicate Blocking(x: Executor, n: nat, b: nat) {
    && b <= n <= 4 && PoolInv(x) && |x.pool.locals| == n && (b < n ==> Pool.Target(x.pool) == b)
    && (forall u {:trigger InHand(x, u)} :: b <= u < n ==> InHand(x, u))
    && (forall u {:trigger InSubmit(x, u)} :: 0 <= u < b ==> InSubmit(x, u))
    && (forall u {:trigger Filled(x.pool, u, QUEUED)} :: 0 <= u < n ==> Filled(x.pool, u, QUEUED))
    && AskedAre(x, n, QUEUED + 1, 0) && AllInTime(x.life)
  }

  lemma BlockingBegins(x: Executor, n: nat)
    requires Filling(x, n, QUEUED, 0)
    ensures Blocking(x, n, 0)
  {
    hide PoolInv, InHand, InSubmit, Filled, AskedAre, AllInTime;
    forall u {:trigger Filled(x.pool, u, QUEUED)} | 0 <= u < n
      ensures Filled(x.pool, u, QUEUED)
    {
      assert Due(n, QUEUED, 0, u) == QUEUED;
    }
  }

  lemma FullHasNoRoom(pool: Pool.Pool, n: nat, b: nat)
    requires |pool.locals| == n && b < n <= 4 && Pool.Target(pool) == b && Filled(pool, b, QUEUED)
    ensures !HasRoom(pool, Nth(b))
    ensures forall t :: Offered(pool, t, Nth(b)) == pool.(nextWorker := pool.nextWorker + 1)
    ensures b + 1 < n ==> Pool.Target(pool.(nextWorker := pool.nextWorker + 1)) == b + 1
  {
    NextTarget(pool);
  }

  lemma FailedInHand(x: Executor, b: nat) returns (x1: Executor, x2: Executor)
    requires b < 4 && PoolInv(x) && InHand(x, b) && b < |x.pool.locals| && !HasRoom(x.pool, Nth(b)) && AllInTime(x.life)
    ensures Becomes(x, Returning(b + 1, false), x1) && Becomes(x1, Settling(b + 1), x2) && PoolInv(x2)
    ensures Inv(x.life) && Enabled(x.life, Return(b + 1, false))
            && x1 == x.(life := Apply(x.life, Return(b + 1, false)))
    ensures Inv(x1.life) && Enabled(x1.life, Settle(b + 1)) && x2.life == Apply(x1.life, Settle(b + 1))
    ensures x2.held == x.held && x2.blocked == x.blocked + {b + 1} && x2.priority == x.priority
    ensures x2.pool == Offered(x.pool, b + 1, Nth(b)) && AllInTime(x2.life)
  {
    LifeOk(x);
    FirstFailure(x.life, b + 1);
    hide PoolInv, Inv, Apply, Enabled, HasRoom, Offered, Becomes, AllInTime;
    CanReturn(x, b + 1, false);
    x1 := Acted(x, Returning(b + 1, false));
    ReturnDone(x, b + 1, false, x1);
    LifeOk(x1);
    CanSettle(x1, b + 1);
    x2 := Acted(x1, Settling(b + 1));
    SettleDone(x1, b + 1, x2);
    OtherInTimeIff(x.life, Return(b + 1, false));
    OtherInTimeIff(x1.life, Settle(b + 1));
  }

  lemma CanReturn(x: Executor, t: TaskId, ok: bool)
    requires t in x.held && Enabled(x.life, Return(t, ok))
    ensures CanDo(x, Returning(t, ok))
  {
  }

  lemma CanSettle(x: Executor, t: TaskId)
    requires t in x.held && Enabled(x.life, Settle(t))
    ensures CanDo(x, Settling(t)) && t in x.life.graph
  {
  }

  lemma BlockOne(x: Executor, n: nat, b: nat) returns (x1: Executor, x2: Executor)
    requires Blocking(x, n, b) && b < n
    ensures Becomes(x, Returning(b + 1, false), x1) && Becomes(x1, Settling(b + 1), x2) && Blocking(x2, n, b + 1)
  {
    hide PoolInv, Inv, Apply, Enabled, HasRoom, Offered, Becomes, InHand, InSubmit, Filled, AskedAre, AllInTime;
    assert InHand(x, b) && Filled(x.pool, b, QUEUED);
    FullHasNoRoom(x.pool, n, b);
    x1, x2 := FailedInHand(x, b);
    AskedSame(x, x2, n, QUEUED + 1, 0);
    SubmitsNow(x, x2, b);
    forall u | 0 <= u < b
      ensures InSubmit(x2, u)
    {
      StillInSubmit(x, x2, u);
    }
    forall u | b + 1 <= u < n
      ensures InHand(x2, u)
    {
      HandHeld(x, x, u);
      HandKept(x, x1, Return(b + 1, false), u);
      HandKept(x1, x2, Settle(b + 1), u);
    }
    FilledStays(x.pool, x2.pool, n);
  }

  lemma FilledStays(pool: Pool.Pool, pool': Pool.Pool, n: nat)
    requires |pool.locals| == n <= 4 && pool' == pool.(nextWorker := pool.nextWorker + 1)
    requires forall u {:trigger Filled(pool, u, QUEUED)} :: 0 <= u < n ==> Filled(pool, u, QUEUED)
    ensures forall u {:trigger Filled(pool', u, QUEUED)} :: 0 <= u < n ==> Filled(pool', u, QUEUED)
  {
    forall u {:trigger Filled(pool', u, QUEUED)} | 0 <= u < n
      ensures Filled(pool', u, QUEUED)
    {
      assert Filled(pool, u, QUEUED);
    }
  }

  lemma SubmitsNow(x: Executor, x': Executor, b: nat)
    requires b < 4 && InHand(x, b) && x'.held == x.held && x'.priority == x.priority
             && x'.blocked == x.blocked + {b + 1}
    ensures InSubmit(x', b)
  {
  }

  lemma StillInSubmit(x: Executor, x': Executor, u: nat)
    requires u < 4 && InSubmit(x, u) && x'.held == x.held && x'.priority == x.priority && x.blocked <= x'.blocked
    ensures InSubmit(x', u)
  {
  }

  lemma AllBlocked(x: Executor, n: nat)
    requires Blocking(x, n, n)
    ensures Jammed(x)
  {
    forall w | 0 <= w < |x.pool.locals|
      ensures WorkerBlocked(x, w)
    {
      assert InSubmit(x, w) && Filled(x.pool, w, QUEUED);
      assert BlockedAt(x, w, w + 1);
    }
  }

  // ---- the whole run

  lemma Twice(x: Executor, a: Action, x1: Executor, b: Action, x2: Executor, rest: seq<Action>)
    requires Becomes(x, a, x1) && Becomes(x1, b, x2) && Possible(x2, rest)
    ensures Possible(x, [a] + ([b] + rest)) && After(x, [a] + ([b] + rest)) == After(x2, rest)
  {
    Prepended(x1, b, x2, rest);
    Prepended(x, a, x1, [b] + rest);
  }

  lemma {:induction false} Block(x: Executor, n: nat, b: nat) returns (actions: seq<Action>)
    requires Blocking(x, n, b)
    ensures Possible(x, actions) && Blocking(After(x, actions), n, n)
    decreases n - b
  {
    hide Blocking, Becomes, Possible, After;
    BlockingBound(x, n, b);
    if b < n {
      var x1, x2 := BlockOne(x, n, b);
      var rest := Block(x2, n, b + 1);
      Twice(x, Returning(b + 1, false), x1, Settling(b + 1), x2, rest);
      actions := [Returning(b + 1, false)] + ([Settling(b + 1)] + rest);
    } else {
      actions := [];
      NoActions(x);
    }
  }

  lemma BlockingBound(x: Executor, n: nat, b: nat)
    requires Blocking(x, n, b)
    ensures b <= n <= 4
  {
  }

  lemma {:induction false} StartAll(x: Executor, n: nat, v: nat) returns (actions: seq<Action>)
    requires Starting(x, n, v)
    ensures Possible(x, actions) && Starting(After(x, actions), n, n)
    decreases n - v
  {
    hide Starting, Becomes, Possible, After;
    StartingBound(x, n, v);
    if v < n {
      var x1, x2 := TakenAtOnce(x, n, v);
      var rest := StartAll(x2, n, v + 1);
      Twice(x, Submission([], 1, Nth(v)), x1, Searching(v), x2, rest);
      actions := [Submission([], 1, Nth(v))] + ([Searching(v)] + rest);
    } else {
      actions := [];
      NoActions(x);
    }
  }

  lemma StartingBound(x: Executor, n: nat, v: nat)
    requires Starting(x, n, v)
    ensures v <= n <= 4
  {
  }

  lemma NewIsStarting(n: nat)
    requires 1 <= n <= 4
    ensures Starting(NewExecutor(n), n, 0)
  {
    NewIsOk(n);
    assert forall p :: Asked(map[], p) == {};
    hide PoolInv;
  }

  lemma JammedAtLast(n: nat, actions: seq<Action>)
    requires 1 <= n <= 4 && Possible(NewExecutor(n), actions) && Blocking(After(NewExecutor(n), actions), n, n)
    ensures StaysBelow(NewExecutor(n), actions, CROWD + 1)
    ensures Jammed(After(NewExecutor(n), actions)) && AllInTime(After(NewExecutor(n), actions).life)
    ensures !AllCompleted(After(NewExecutor(n), actions).life)
  {
    var x := After(NewExecutor(n), actions);
    AllBlocked(x, n);
    hide PoolInv, Jammed, InSubmit, Filled, Asked, AllCompleted, AllInTime, StaysBelow;
    NewIsOk(n);
    NoneBlocked(n, 1);
    forall p
      ensures |Asked(x.priority, p)| < CROWD + 1
    {
      NthOf(p);
    }
    AskedBounds(NewExecutor(n), actions, CROWD + 1);
    JamIsUnfinished(x);
  }

  /** The bound of UncrowdedNeverJams is the least: up to four workers can be jammed by a run in which
      there are never more than CROWD unfinished tasks of a priority, all submitted in time and
      without dependencies, and then nothing finishes any more. */
  lemma FewWorkersMayJam(n: nat) returns (actions: seq<Action>)
    requires 1 <= n <= 4
    ensures Possible(NewExecutor(n), actions) && StaysBelow(NewExecutor(n), actions, CROWD + 1)
    ensures var x := After(NewExecutor(n), actions);
            Jammed(x) && AllInTime(x.life) && !AllCompleted(x.life)
  {
    hide Starting, Filling, Blocking, Possible, After, StaysBelow, Jammed, AllInTime, AllCompleted;
    var x0 := NewExecutor(n);
    NewIsStarting(n);
    var first := StartAll(x0, n, 0);
    var x1 := After(x0, first);
    FillingBegins(x1, n);
    var fill := Fill(x1, n, 0, 0);
    var x2 := After(x1, fill);
    BlockingBegins(x2, n);
    var last := Block(x2, n, 0);
    Continued(x1, fill, last);
    Continued(x0, first, fill + last);
    actions := first + (fill + last);
    JammedAtLast(n, actions);
  }
}
