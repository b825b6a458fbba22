/** Safety over whole runs of the executor: dependency order, one copy of a task at a time, the
    number of attempts, and exactly when a run that has come to rest has finished everything. */
module LifecycleSafety {
  import opened Sequences
  import opened Tasks
  import opened Cycles
  import opened GraphModel
  import opened Lifecycle
  import opened LifecycleRuns

  // ---- dependencies

  /** The counter is the number of dependency entries still to be notified plus those that were
      notified before the task was submitted; so it never runs ahead of the notifications. */
  lemma CounterNeverForgets(states: seq<State>, steps: seq<Step>, i: nat, t: TaskId)
    requires Run(states, steps) && i < |states| && t in states[i].graph
    ensures t in states[i].late
    ensures states[i].graph[t].dependenciesCount
            == Open(states[i].graph[t].dependencies, Elements(states[i].terminal)) + states[i].late[t]
  {
    hide Enabled, Apply;
    RunOk(states, steps, i);
    assert TaskOk(states[i], t);
  }

  /** A finished task has no copy anywhere and a final status. */
  lemma FinishedAt(s: State, d: TaskId)
    requires Inv(s) && d in s.terminal
    ensures d in s.graph && Copies(s, d) == 0
    ensures s.graph[d].status.Completed? || s.graph[d].status.Failed?
    ensures forall step :: Enabled(s, step) && !step.Submit? ==> step.id != d
  {
    assert TaskOk(s, d);
  }

  /** When an attempt of a task starts, each of its dependencies has finished, and it stays so. */
  lemma DependencySafety(states: seq<State>, steps: seq<Step>, i: nat, j: nat, d: TaskId)
    requires Run(states, steps) && i < |steps| && i <= j < |states|
    requires steps[i].Start? && steps[i].id in states[i].graph
    requires d in states[i].graph[steps[i].id].dependencies
    ensures d in states[i].terminal && d in states[j].terminal
    ensures d in states[i].graph && d in states[j].graph && Copies(states[j], d) == 0
    ensures states[j].graph[d].status == states[i].graph[d].status
    ensures states[j].graph[d].status.Completed? || states[j].graph[d].status.Failed?
  {
    hide Inv, Apply, Keeps;
    var s, t := states[i], steps[i].id;
    assert StepAtIndex(states, steps, i);
    RunOk(states, steps, i);
    RunOk(states, steps, j);
    StartedIsFree(s, t);
    RunKeeps(states, steps, i, j);
    FinishedAt(s, d);
    KeepsFinished(s, states[j], d);
    FinishedAt(states[j], d);
  }

  lemma StartedIsFree(s: State, t: TaskId)
    requires Inv(s) && Enabled(s, Start(t))
    ensures forall d :: d in s.graph[t].dependencies ==> d in s.terminal
  {
    assert TaskOk(s, t);
    OpenZero(s.graph[t].dependencies, Elements(s.terminal));
  }

  lemma KeepsFinished(s: State, s': State, d: TaskId)
    requires Keeps(s, s') && d in s.terminal && d in s.graph
    ensures d in s'.terminal && d in s'.graph && s'.graph[d].status == s.graph[d].status
    ensures s'.graph[d].attempts == s.graph[d].attempts
  {
    assert KeepsTask(s, s', d);
  }

  /** The terminal events are a linear extension of the dependency graph, each delivered once. */
  lemma TerminalEventsFollowTheGraph(states: seq<State>, steps: seq<Step>, i: nat)
    requires Run(states, steps) && i < |states|
    ensures NoDuplicates(states[i].terminal)
    ensures DependenciesFirst(DepsOf(states[i].graph), states[i].terminal)
    ensures WellFormed(states[i].graph)
  {
    hide Enabled, Apply;
    RunOk(states, steps, i);
  }

  /** No task that has finished ever contains a cycle above it: tasks below a cycle never finish. */
  lemma CyclesNeverFinish(states: seq<State>, steps: seq<Step>, i: nat, t: TaskId)
    requires Run(states, steps) && i < |states| && t in states[i].graph
    requires BelowCycle(DepsOf(states[i].graph), t)
    ensures t !in states[i].terminal && states[i].graph[t].attempts == 0
  {
    hide Enabled, Apply, BelowCycle, Keeps;
    RunOk(states, steps, i);
    var s := states[i];
    if t in s.terminal {
      OrderAvoidsCycles(DepsOf(s.graph), s.terminal, t);
    }
    assert TaskOk(s, t);
    if s.graph[t].attempts > 0 || Copies(s, t) > 0 {
      OpenZero(s.graph[t].dependencies, Elements(s.terminal));
      var order := s.terminal + [t];
      forall k | 0 <= k < |order|
        ensures PlacedAfter(DepsOf(s.graph), order, k)
      {
        if k < |s.terminal| {
          assert PlacedAfter(DepsOf(s.graph), s.terminal, k);
          assert order[..k] == s.terminal[..k];
        } else {
          assert order[..k] == s.terminal;
        }
      }
      OrderAvoidsCycles(DepsOf(s.graph), order, t);
    }
  }

  // ---- one copy at a time

  lemma OneCopyAtMost(states: seq<State>, steps: seq<Step>, i: nat, t: TaskId)
    requires Run(states, steps) && i < |states|
    ensures Copies(states[i], t) <= 1
    ensures Copies(states[i], t) == 1 ==>
            t in states[i].graph && states[i].graph[t].enqueued && t !in states[i].terminal
  {
    hide Enabled, Apply;
    RunOk(states, steps, i);
    if t in states[i].graph {
      assert TaskOk(states[i], t);
    }
  }

  ghost predicate InAttempt(s: State, t: TaskId) {
    t in s.running || t in s.settling
  }

  lemma AttemptGoesOn(s: State, step: Step, t: TaskId)
    requires Inv(s) && Enabled(s, step) && t in s.graph && InAttempt(s, t)
    requires step != Settle(t)
    ensures InAttempt(Apply(s, step), t)
    ensures step != Start(t)
  {
    hide Inv;
    InvAt(s, t);
    if step.Submit? || step.id != t {
      StepAside(s, step, t);
      hide Apply, TaskOk;
    }
  }

  lemma {:induction false} AttemptLasts(states: seq<State>, steps: seq<Step>, i: nat, j: nat, t: TaskId)
    requires Run(states, steps) && i < j < |states| && steps[i] == Start(t)
    requires forall k :: i < k < j ==> steps[k] != Settle(t)
    ensures InAttempt(states[j], t) && t in states[j].graph
    decreases j
  {
    hide Inv;
    assert StepAtIndex(states, steps, j - 1);
    RunOk(states, steps, j - 1);
    StepGraphKeys(states[j - 1], steps[j - 1]);
    if j - 1 > i {
      AttemptLasts(states, steps, i, j - 1, t);
      AttemptGoesOn(states[j - 1], steps[j - 1], t);
    }
  }

  /** Attempts of one task never overlap: between two starts the first attempt is settled. */
  lemma AttemptsNeverOverlap(states: seq<State>, steps: seq<Step>, i: nat, j: nat, t: TaskId)
    requires Run(states, steps) && i < j < |steps|
    requires steps[i] == Start(t) && steps[j] == Start(t)
    ensures exists k :: i < k < j && steps[k] == Settle(t)
  {
    hide Inv;
    if forall k :: i < k < j ==> steps[k] != Settle(t) {
      AttemptLasts(states, steps, i, j, t);
      RunOk(states, steps, j);
      assert StepAtIndex(states, steps, j);
      AttemptGoesOn(states[j], steps[j], t);
    }
  }

  // ---- attempts

  ghost function Starts(steps: seq<Step>, t: TaskId): nat {
    if steps == [] then 0 else
      Starts(steps[..|steps| - 1], t) + if steps[|steps| - 1] == Start(t) then 1 else 0
  }

  ghost function Attempts(s: State, t: TaskId): nat {
    if t in s.graph then s.graph[t].attempts else 0
  }

  lemma StepAttempts(s: State, step: Step, t: TaskId)
    requires Inv(s) && Enabled(s, step)
    ensures Attempts(Apply(s, step), t) == Attempts(s, t) + if step == Start(t) then 1 else 0
  {
    if t in s.graph && (step.Submit? || step.id != t) {
      StepAside(s, step, t);
    } else if t in s.graph {
      OwnAttempts(s, step);
    } else {
      StepGraphKeys(s, step);
      if step.Submit? {
        RecordedAt(s, step.dependencies, step.maxRetries);
      }
    }
  }

  lemma OwnAttempts(s: State, step: Step)
    requires Inv(s) && Enabled(s, step) && !step.Submit?
    ensures Attempts(Apply(s, step), step.id) == Attempts(s, step.id) + if step.Start? then 1 else 0
  {
    assert TaskOk(s, step.id);
  }

  /** The starts of a task in a run are its attempts, at most one more than its retries. */
  lemma {:induction false} AttemptsBound(states: seq<State>, steps: seq<Step>, t: TaskId)
    requires Run(states, steps)
    ensures Starts(steps, t) == Attempts(states[|steps|], t)
    ensures t in states[|steps|].graph ==> Starts(steps, t) <= states[|steps|].graph[t].maxRetries + 1
    decreases |steps|
  {
    hide Apply, Enabled;
    var n := |steps|;
    RunOk(states, steps, n);
    if t in states[n].graph {
      assert TaskOk(states[n], t);
    }
    if n > 0 {
      RunPrefix(states, steps);
      AttemptsBound(states[..n], steps[..n - 1], t);
      assert StepAtIndex(states, steps, n - 1);
      RunOk(states, steps, n - 1);
      StepAttempts(states[n - 1], steps[n - 1], t);
    }
  }

  ghost predicate Succeeded(s: State, t: TaskId) {
    t in s.graph && s.graph[t].status.Completed?
  }

  lemma FinishSucceeds(s: State, u: TaskId, t: TaskId)
    requires u in s.graph && Succeeded(Finish(s, u), t)
    ensures Succeeded(s, t)
  {
    assert t in NotifyCompleted(s.graph, u);
    assert NotifyCompleted(s.graph, u)[t] == s.graph[t].Notified(BackEdges(s.graph, t, u));
  }

  lemma SettleSucceeds(s: State, u: TaskId, t: TaskId)
    requires Enabled(s, Settle(u)) && Succeeded(Apply(s, Settle(u)), t)
    ensures Succeeded(s, t)
  {
    if s.graph[u].status.Completed? {
      FinishSucceeds(Leave(s, u, s.metrics.Completion()), u, t);
    } else if !s.graph[u].CanRetry() {
      FinishSucceeds(Leave(s, u, s.metrics.Failure()), u, t);
    }
  }

  lemma SubmitSucceeds(s: State, ds: seq<TaskId>, maxRetries: nat, t: TaskId)
    requires Inv(s) && Succeeded(Apply(s, Submit(ds, maxRetries)), t)
    ensures Succeeded(s, t)
  {
    RecordedAt(s, ds, maxRetries);
  }

  lemma StepSucceeds(s: State, step: Step, t: TaskId)
    requires Inv(s) && Enabled(s, step) && Succeeded(Apply(s, step), t)
    ensures step == Return(t, true) || Succeeded(s, t)
  {
    match step
    case Submit(ds, maxRetries) => SubmitSucceeds(s, ds, maxRetries, t);
    case Tick(_) =>
    case Start(_) =>
    case Return(_, _) =>
    case Settle(u) => SettleSucceeds(s, u, t);
  }

  lemma {:induction false} CompletedReturned(states: seq<State>, steps: seq<Step>, t: TaskId)
    requires Run(states, steps)
    requires Succeeded(states[|steps|], t)
    ensures Return(t, true) in steps
    decreases |steps|
  {
    hide Apply, Enabled, Inv;
    var n := |steps|;
    if n > 0 {
      RunPrefix(states, steps);
      assert StepAtIndex(states, steps, n - 1);
      RunOk(states, steps, n - 1);
      StepSucceeds(states[n - 1], steps[n - 1], t);
      if steps[n - 1] != Return(t, true) {
        CompletedReturned(states[..n], steps[..n - 1], t);
      }
    }
  }

  /** When every attempt fails, a finished task has used its whole budget. */
  lemma FailuresUseTheWholeBudget(states: seq<State>, steps: seq<Step>, t: TaskId)
    requires Run(states, steps)
    requires t in states[|steps|].terminal && t in states[|steps|].graph
    requires Return(t, true) !in steps
    ensures states[|steps|].graph[t].status.Failed?
    ensures Starts(steps, t) == states[|steps|].graph[t].maxRetries + 1
  {
    hide Apply, Enabled;
    var n := |steps|;
    RunOk(states, steps, n);
    assert TaskOk(states[n], t);
    AttemptsBound(states, steps, t);
    if states[n].graph[t].status.Completed? {
      CompletedReturned(states, steps, t);
    }
  }

  /** What `get_task_status` says of a task that waits. Before its first attempt it is Ready if and only
      if it has dependencies and the counter has come down to zero, which is when all of them have
      finished and none had before it was submitted; otherwise, and before every retry, it is Pending. */
  lemma ReadyIff(states: seq<State>, steps: seq<Step>, i: nat, t: TaskId)
    requires Run(states, steps) && i < |states| && t in states[i].graph
    requires t !in states[i].running && t !in states[i].settling && t !in states[i].terminal
    ensures var s, v := states[i], states[i].graph[t];
            && t in s.late && (v.status.Ready? || v.status.Pending?)
            && (v.status.Ready? <==> v.dependencies != [] && v.dependenciesCount == 0 && v.attempts == 0)
            && (v.status.Ready? <==>
                && v.dependencies != [] && s.late[t] == 0 && v.attempts == 0
                && forall d :: d in v.dependencies ==> d in s.terminal)
  {
    hide Enabled, Apply;
    RunOk(states, steps, i);
    InvAt(states[i], t);
    OpenZero(states[i].graph[t].dependencies, Elements(states[i].terminal));
  }

  // ---- coming to rest

  /** Nothing is queued, running or about to be settled, and the scheduler finds nothing ready. */
  ghost predicate AtRest(s: State) {
    && s.queued == s.running == s.settling == multiset{}
    && forall t :: t in s.graph ==> !s.graph[t].IsReady()
  }

  lemma AtRestIffOnlySubmissionsAreEnabled(s: State)
    requires Inv(s)
    ensures AtRest(s) <==> forall step :: Enabled(s, step) ==> step.Submit?
  {
    if forall step :: Enabled(s, step) ==> step.Submit? {
      forall t | t in s.graph
        ensures !s.graph[t].IsReady() && t !in s.queued && t !in s.running && t !in s.settling
      {
        assert !Enabled(s, Tick(t)) && !Enabled(s, Start(t)) && !Enabled(s, Return(t, true)) && !Enabled(s, Settle(t));
      }
      assert s.queued == multiset{} && s.running == multiset{} && s.settling == multiset{};
    }
  }

  /** `all_completed`. */
  ghost predicate AllCompleted(s: State) {
    forall t :: t in s.graph ==> s.graph[t].status.Terminal()
  }

  /** What `all_completed` sees: a task whose `execute` has returned counts as completed even
      before its hook has run. */
  lemma AllCompletedIff(s: State)
    requires Inv(s)
    ensures AllCompleted(s) <==> forall t :: t in s.graph ==> t in s.terminal || t in s.settling
  {
    forall t | t in s.graph
      ensures s.graph[t].status.Terminal() <==> t in s.terminal || t in s.settling
    {
      assert TaskOk(s, t);
    }
  }

  /** t was submitted after none of its dependencies had finished, and does not depend on itself. */
  ghost predicate InTime(s: State, t: TaskId)
    requires t in s.graph && t in s.late
  {
    s.late[t] == 0 && t !in s.graph[t].dependencies
  }

  lemma {:induction false} RestFinishes(s: State, t: TaskId)
    requires Inv(s) && AtRest(s) && t in s.graph
    requires forall u {:trigger InTime(s, u)} :: u in s.graph ==> InTime(s, u)
    ensures t in s.terminal
    decreases t
  {
    assert TaskOk(s, t) && InTime(s, t) && NeighboursLive(s.graph, t);
    forall d | d in s.graph[t].dependencies
      ensures d in s.terminal
    {
      RestFinishes(s, d);
    }
    OpenZero(s.graph[t].dependencies, Elements(s.terminal));
  }

  lemma FinishedWasInTime(s: State, t: TaskId)
    requires Inv(s) && t in s.graph && t in s.terminal
    ensures InTime(s, t)
  {
    assert TaskOk(s, t);
    var i :| 0 <= i < |s.terminal| && s.terminal[i] == t;
    assert PlacedAfter(DepsOf(s.graph), s.terminal, i);
  }

  /** Deadlock freedom where the queues have room, exactly: a state at rest has finished every task, so that
      `wait_for_completion` returns, if and only if every task was submitted in time. */
  lemma RestIsCompletionIff(s: State)
    requires Inv(s) && AtRest(s)
    ensures AllCompleted(s) <==> forall t {:trigger InTime(s, t)} :: t in s.graph ==> InTime(s, t)
  {
    AllCompletedIff(s);
    if AllCompleted(s) {
      forall t | t in s.graph
        ensures InTime(s, t)
      {
        FinishedWasInTime(s, t);
      }
    }
    if forall t {:trigger InTime(s, t)} :: t in s.graph ==> InTime(s, t) {
      forall t | t in s.graph
        ensures t in s.terminal
      {
        RestFinishes(s, t);
      }
    }
  }

  /** The caller's side of the condition: a submission that names neither a task that has finished
      nor the id it is about to be given. Ids nobody has been given are skipped. */
  ghost predicate Timely(s: State, ds: seq<TaskId>) {
    forall d :: d in ds ==> d != s.nextId && d !in s.terminal
  }

  ghost predicate AllInTime(s: State) {
    forall t {:trigger InTime(s, t)} :: t in s.graph && t in s.late ==> InTime(s, t)
  }

  lemma {:induction false} KnownIff(g: Graph, ds: seq<TaskId>)
    ensures forall d :: d in Known(g, ds) <==> d in ds && d in g
  {
    if ds != [] {
      KnownIff(g, ds[1..]);
    }
  }

  lemma NewInTimeIff(s: State, ds: seq<TaskId>, maxRetries: nat)
    requires Inv(s)
    ensures var s1 := Recorded(s, ds, maxRetries);
            s.nextId in s1.graph && s.nextId in s1.late && (InTime(s1, s.nextId) <==> Timely(s, ds))
  {
    var g1 := AddTask(s.graph, s.nextId, maxRetries);
    RecordedAt(s, ds, maxRetries);
    KnownIff(g1, ds);
    OpenBound(Known(g1, ds), Elements(s.terminal));
  }

  lemma SubmitInTimeIff(s: State, ds: seq<TaskId>, maxRetries: nat)
    requires Inv(s)
    ensures AllInTime(Apply(s, Submit(ds, maxRetries))) <==> AllInTime(s) && Timely(s, ds)
  {
    var s1, s' := Recorded(s, ds, maxRetries), Apply(s, Submit(ds, maxRetries));
    RecordedAt(s, ds, maxRetries);
    NewInTimeIff(s, ds, maxRetries);
    assert InTime(s', s.nextId) <==> InTime(s1, s.nextId);
    forall t | t in s.graph
      ensures t in s'.graph && t in s'.late && (InTime(s', t) <==> InTime(s, t))
    {
      assert t != s.nextId;
    }
  }

  lemma OtherInTimeIff(s: State, step: Step)
    requires Inv(s) && Enabled(s, step) && !step.Submit?
    ensures AllInTime(Apply(s, step)) <==> AllInTime(s)
  {
    hide Apply, Enabled;
    var s' := Apply(s, step);
    StepGraphKeys(s, step);
    StepKeepsHistory(s, step);
    forall t | t in s.graph
      ensures t in s'.graph && t in s'.late && (InTime(s', t) <==> InTime(s, t))
    {
      assert KeepsTask(s, s', t);
    }
  }

  ghost predicate AllTimely(states: seq<State>, steps: seq<Step>)
    requires |states| == |steps| + 1
  {
    forall i {:trigger steps[i]} :: 0 <= i < |steps| && steps[i].Submit? ==> Timely(states[i], steps[i].dependencies)
  }

  lemma {:induction false} RunInTimeIff(states: seq<State>, steps: seq<Step>)
    requires Run(states, steps)
    ensures AllInTime(states[|steps|]) <==> AllTimely(states, steps)
    decreases |steps|
  {
    hide Apply, Enabled, Inv, Timely;
    var n := |steps|;
    if n > 0 {
      RunPrefix(states, steps);
      RunInTimeIff(states[..n], steps[..n - 1]);
      assert AllTimely(states, steps) <==>
             AllTimely(states[..n], steps[..n - 1])
                 && (steps[n - 1].Submit? ==> Timely(states[n - 1], steps[n - 1].dependencies));
      RunOk(states, steps, n - 1);
      assert StepAtIndex(states, steps, n - 1);
      match steps[n - 1]
      case Submit(ds, maxRetries) => SubmitInTimeIff(states[n - 1], ds, maxRetries);
      case _ => OtherInTimeIff(states[n - 1], steps[n - 1]);
    }
  }

  /** Whole runs: an executor that has come to rest has finished everything, so that
      `wait_for_completion` returns, if and only if no submission named a task already finished or
      its own future id. */
  lemma RunAtRestCompletesIff(states: seq<State>, steps: seq<Step>)
    requires Run(states, steps)
    requires AtRest(states[|steps|])
    ensures AllCompleted(states[|steps|]) <==> AllTimely(states, steps)
  {
    hide Apply, Enabled, AtRest, AllCompleted, AllTimely;
    var s := states[|steps|];
    RunOk(states, steps, |steps|);
    RestIsCompletionIff(s);
    RunInTimeIff(states, steps);
  }

  /** The state in which the only task, with one retry, has started its first attempt. */
  lemma OneTaskStarted() returns (s1: State, s2: State)
    ensures Enabled(INITIAL, Submit([], 1)) && s1 == Apply(INITIAL, Submit([], 1))
    ensures Enabled(s1, Start(1)) && s2 == Apply(s1, Start(1))
    ensures s2.graph.Keys == {1} && 1 in s2.running
    ensures s2.graph[1] == NewTask(1).(enqueued := true, status := Running, attempts := 1)
  {
    s1 := Apply(INITIAL, Submit([], 1));
    assert s1.graph[1] == NewTask(1).(enqueued := true) && s1.graph.Keys == {1};
    s2 := Apply(s1, Start(1));
  }

  lemma FirstAttemptFails(s2: State) returns (s3: State, s4: State)
    requires s2.graph.Keys == {1} && 1 in s2.running
    requires s2.graph[1] == NewTask(1).(enqueued := true, status := Running, attempts := 1)
    ensures Enabled(s2, Return(1, false)) && s3 == Apply(s2, Return(1, false))
    ensures Enabled(s3, Settle(1)) && s4 == Apply(s3, Settle(1))
    ensures AllCompleted(s3) && !AllCompleted(s4) && 1 in s4.queued
  {
    s3 := Apply(s2, Return(1, false));
    assert s3.graph[1] == s2.graph[1].(status := Failed) && s3.graph.Keys == {1};
    assert s3.graph[1].CanRetry();
    s4 := Apply(s3, Settle(1));
    assert s4.graph[1].status == Pending;
  }

  /** `wait_for_completion` may return while a retry is still to come: between the return of a
      failed `execute` and `handle_failure` the status is already Failed. */
  lemma WaitMayReturnBeforeARetry() returns (states: seq<State>, steps: seq<Step>)
    ensures Run(states, steps) && |steps| == 4
    ensures AllCompleted(states[3]) && !AllCompleted(states[4])
    ensures 1 in states[4].queued
  {
    hide Apply, Enabled, AllCompleted;
    var s1, s2 := OneTaskStarted();
    var s3, s4 := FirstAttemptFails(s2);
    steps := [Submit([], 1), Start(1), Return(1, false), Settle(1)];
    states := [INITIAL, s1, s2, s3, s4];
    forall i | 0 <= i < |steps|
      ensures StepAtIndex(states, steps, i)
    {
      assert i == 0 || i == 1 || i == 2 || i == 3;
    }
  }

  lemma FirstBags(s1: State, s2: State)
    requires Enabled(INITIAL, Submit([], 1)) && s1 == Apply(INITIAL, Submit([], 1))
    requires Enabled(s1, Start(1)) && s2 == Apply(s1, Start(1))
    ensures s2.queued == s2.settling == multiset{} && s2.running == multiset{1} && s2.terminal == [] && s2.nextId == 2
  {
  }

  /** Task 1 is the only one, has finished, and nothing is going on. */
  ghost predicate OneDone(s: State) {
    && Inv(s) && s.graph.Keys == {1} && s.graph[1].status.Completed?
    && s.terminal == [1] && s.nextId == 2 && s.queued == s.running == s.settling == multiset{}
  }

  lemma FirstAttemptSucceeds(s2: State) returns (s3: State, s4: State)
    requires s2.graph.Keys == {1} && s2.running == multiset{1} && s2.queued == s2.settling == multiset{}
    requires s2.graph[1] == NewTask(1).(enqueued := true, status := Running, attempts := 1)
    requires s2.terminal == [] && s2.nextId == 2
    ensures Enabled(s2, Return(1, true)) && s3 == Apply(s2, Return(1, true))
    ensures Enabled(s3, Settle(1)) && s4 == Apply(s3, Settle(1))
    ensures s4.graph.Keys == {1} && s4.graph[1].status.Completed? && s4.terminal == [1] && s4.nextId == 2
    ensures s4.queued == s4.running == s4.settling == multiset{}
  {
    s3 := Apply(s2, Return(1, true));
    assert s3.graph[1] == s2.graph[1].(status := Completed) && s3.graph.Keys == {1} && s3.settling == multiset{1};
    s4 := Apply(s3, Settle(1));
  }

  /** A task is submitted, started, and ends well. */
  lemma OneTaskDone() returns (s1: State, s2: State, s3: State, s4: State)
    ensures Enabled(INITIAL, Submit([], 1)) && s1 == Apply(INITIAL, Submit([], 1))
    ensures Enabled(s1, Start(1)) && s2 == Apply(s1, Start(1))
    ensures Enabled(s2, Return(1, true)) && s3 == Apply(s2, Return(1, true))
    ensures Enabled(s3, Settle(1)) && s4 == Apply(s3, Settle(1))
    ensures OneDone(s4)
  {
    hide Inv, Apply, Enabled;
    s1, s2 := OneTaskStarted();
    FirstBags(s1, s2);
    s3, s4 := FirstAttemptSucceeds(s2);
    InitialOk();
    StepKeeps(INITIAL, Submit([], 1));
    StepKeeps(s1, Start(1));
    StepKeeps(s2, Return(1, true));
    StepKeeps(s3, Settle(1));
  }

  /** A task that names the finished one waits for an event that has passed. */
  lemma LateSubmission(s: State)
    requires OneDone(s)
    ensures AtRest(Apply(s, Submit([1], 0))) && !AllCompleted(Apply(s, Submit([1], 0)))
  {
    var g1 := AddTask(s.graph, 2, 0);
    assert Known(g1, [1]) == [1];
    RecordedAt(s, [1], 0);
  }

  lemma SelfSubmission()
    ensures AtRest(Apply(INITIAL, Submit([1], 0))) && !AllCompleted(Apply(INITIAL, Submit([1], 0)))
  {
    var g1 := AddTask(INITIAL.graph, 1, 0);
    assert Known(g1, [1]) == [1];
    RecordedAt(INITIAL, [1], 0);
  }

  /** The failing side of RunAtRestCompletesIff happens: a dependency that has finished leaves its
      dependent unfinished in an executor at rest. */
  lemma LateDependencyBlocks() returns (states: seq<State>, steps: seq<Step>)
    ensures Run(states, steps) && steps == [Submit([], 1), Start(1), Return(1, true), Settle(1), Submit([1], 0)]
    ensures AtRest(states[|steps|]) && !AllCompleted(states[|steps|])
  {
    hide Apply, Enabled, OneDone, AtRest, AllCompleted;
    var s1, s2, s3, s4 := OneTaskDone();
    SubmitIsEnabled(s4, [1], 0);
    LateSubmission(s4);
    steps := [Submit([], 1), Start(1), Return(1, true), Settle(1), Submit([1], 0)];
    states := [INITIAL, s1, s2, s3, s4, Apply(s4, Submit([1], 0))];
    forall i | 0 <= i < |steps|
      ensures StepAtIndex(states, steps, i)
    {
      assert i == 0 || i == 1 || i == 2 || i == 3 || i == 4;
    }
  }

  lemma SubmitIsEnabled(s: State, ds: seq<TaskId>, maxRetries: nat)
    ensures Enabled(s, Submit(ds, maxRetries))
  {
  }

  /** So does a task that names the id it is about to be given. */
  lemma SelfDependencyBlocks() returns (states: seq<State>, steps: seq<Step>)
    ensures Run(states, steps) && steps == [Submit([1], 0)]
    ensures AtRest(states[|steps|]) && !AllCompleted(states[|steps|])
  {
    hide Apply, AtRest, AllCompleted;
    SelfSubmission();
    steps := [Submit([1], 0)];
    states := [INITIAL, Apply(INITIAL, Submit([1], 0))];
    assert StepAtIndex(states, steps, 0);
  }
}
