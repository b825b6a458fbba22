/** What holds over whole runs of the executor: progress, metrics, dependency order, attempts. */
module LifecycleRuns {
  import opened Sequences
  import opened Tasks
  import opened Cycles
  import opened GraphModel
  import opened MonitorMetrics
  import opened Lifecycle

  // ---- what a step never undoes

  /** Dependencies, retry budgets and everything about finished tasks are kept for good. */
  ghost predicate Keeps(s: State, s': State) {
    && s.nextId <= s'.nextId
    && |s.terminal| <= |s'.terminal| && s'.terminal[..|s.terminal|] == s.terminal
    && (forall t {:trigger KeepsTask(s, s', t)} :: t in s.graph ==> KeepsTask(s, s', t))
  }

  ghost predicate KeepsTask(s: State, s': State, t: TaskId) {
    && t in s.graph && t in s'.graph && t in s.late && t in s'.late
    && s'.graph[t].dependencies == s.graph[t].dependencies
    && s'.graph[t].maxRetries == s.graph[t].maxRetries
    && s'.late[t] == s.late[t]
    && (t in s.terminal ==> t in s'.terminal && s'.graph[t].status == s.graph[t].status
                            && s'.graph[t].attempts == s.graph[t].attempts)
  }

  lemma KeepsSelf(s: State)
    requires Inv(s)
    ensures Keeps(s, s)
  {
  }

  lemma KeepsTransitive(a: State, b: State, c: State)
    requires Keeps(a, b) && Keeps(b, c)
    ensures Keeps(a, c)
  {
    forall t | t in a.graph
      ensures KeepsTask(a, c, t)
    {
      assert KeepsTask(a, b, t);
      assert KeepsTask(b, c, t);
    }
    assert c.terminal[..|a.terminal|] == c.terminal[..|b.terminal|][..|a.terminal|];
  }

  /** What a step may change at a task it is not about: only edges to it, the counter, and a
      pending task's status. */
  ghost predicate Aside(s: State, s': State, u: TaskId) {
    && KeepsTask(s, s', u)
    && s'.graph[u].attempts == s.graph[u].attempts
    && StageOf(s', u) == StageOf(s, u)
  }

  lemma SubmitAside(s: State, ds: seq<TaskId>, maxRetries: nat, u: TaskId)
    requires Inv(s) && u in s.graph
    ensures Aside(s, Apply(s, Submit(ds, maxRetries)), u)
  {
    var id, s1 := s.nextId, Recorded(s, ds, maxRetries);
    InvAt(s, u);
    RecordedAt(s, ds, maxRetries);
    RecordedAside(s, ds, maxRetries, u);
    assert u != id;
    hide Aside, Recorded, Inv, Base, TaskOk;
    if s1.graph[id].IsReady() {
      EnqueueAside(s, s1, id, u);
    }
  }

  lemma RecordedAside(s: State, ds: seq<TaskId>, maxRetries: nat, u: TaskId)
    requires Base(s) && u in s.graph && u in s.late
    ensures Aside(s, Recorded(s, ds, maxRetries), u)
  {
    RecordedAt(s, ds, maxRetries);
    hide WellFormed, DependenciesFirst;
  }

  lemma EnqueueAside(s: State, s1: State, t: TaskId, u: TaskId)
    requires Aside(s, s1, u) && t in s1.graph && t != u
    ensures Aside(s, Enqueue(s1, t), u)
  {
  }

  lemma FinishAside(s: State, t: TaskId, u: TaskId)
    requires t in s.graph && u in s.graph && u in s.late && u != t
    requires u in s.terminal ==> s.graph[u].dependenciesCount == 0
    ensures Aside(s, Finish(s, t), u)
  {
    assert Finish(s, t).graph[u] == s.graph[u].Notified(BackEdges(s.graph, u, t));
  }

  lemma LeaveAside(s: State, t: TaskId, m: Metrics, u: TaskId)
    requires t in s.graph && u in s.graph && u in s.late && u != t
    requires u in s.terminal ==> s.graph[u].dependenciesCount == 0
    ensures Aside(s, Finish(Leave(s, t, m), t), u)
  {
    hide Finish;
    FinishAside(Leave(s, t, m), t, u);
  }

  lemma RetryAside(s: State, t: TaskId, u: TaskId)
    requires Enabled(s, Settle(t)) && s.graph[t].CanRetry() && u in s.graph && u in s.late && u != t
    ensures Aside(s, ApplyFailure(s, t), u)
  {
  }

  lemma TerminalIsThrough(s: State, u: TaskId)
    requires Inv(s) && u in s.graph
    ensures u in s.late && (u in s.terminal ==> s.graph[u].dependenciesCount == 0)
  {
    InvAt(s, u);
  }

  lemma SettleAside(s: State, t: TaskId, u: TaskId)
    requires Inv(s) && Enabled(s, Settle(t)) && u in s.graph && u != t
    ensures Aside(s, Apply(s, Settle(t)), u)
  {
    hide Inv, Finish, Leave, Aside;
    TerminalIsThrough(s, u);
    if s.graph[t].status.Completed? {
      LeaveAside(s, t, s.metrics.Completion(), u);
    } else if s.graph[t].CanRetry() {
      RetryAside(s, t, u);
    } else {
      LeaveAside(s, t, s.metrics.Failure(), u);
    }
  }

  lemma StepAside(s: State, step: Step, u: TaskId)
    requires Inv(s) && Enabled(s, step) && u in s.graph
    requires step.Submit? || step.id != u
    ensures Aside(s, Apply(s, step), u)
  {
    match step
    case Submit(ds, maxRetries) => SubmitAside(s, ds, maxRetries, u);
    case Tick(_) =>
    case Start(_) =>
    case Return(_, _) =>
    case Settle(t) => SettleAside(s, t, u);
  }

  lemma StepOwn(s: State, step: Step)
    requires Inv(s) && Enabled(s, step) && !step.Submit?
    ensures KeepsTask(s, Apply(s, step), step.id)
  {
    assert TaskOk(s, step.id);
  }

  lemma StepKeepsAt(s: State, step: Step, t: TaskId)
    requires Inv(s) && Enabled(s, step) && t in s.graph
    ensures KeepsTask(s, Apply(s, step), t)
  {
    if step.Submit? || step.id != t {
      StepAside(s, step, t);
    } else {
      StepOwn(s, step);
    }
  }

  lemma StepExtends(s: State, step: Step)
    requires Enabled(s, step)
    ensures Apply(s, step).nextId == s.nextId + if step.Submit? then 1 else 0
    ensures Apply(s, step).terminal == s.terminal || (step.Settle? && Apply(s, step).terminal == s.terminal + [step.id])
  {
  }

  lemma StepKeepsHistory(s: State, step: Step)
    requires Inv(s) && Enabled(s, step)
    ensures Keeps(s, Apply(s, step))
  {
    var s' := Apply(s, step);
    StepExtends(s, step);
    forall t | t in s.graph
      ensures KeepsTask(s, s', t)
    {
      StepKeepsAt(s, step, t);
    }
  }

  // ---- progress

  /** An upper bound on the productive steps a task still has before it. */
  ghost function Weight(s: State, t: TaskId): int
    requires t in s.graph
  {
    var left := 4 * (s.graph[t].maxRetries + 1 - s.graph[t].attempts);
    match StageOf(s, t)
    case Idle => left
    case InQueue => left - 1
    case Executing => left + 2
    case Returned => left + 1
    case Done => 0
  }

  ghost function Weights(s: State): map<TaskId, int> {
    map t | t in s.graph :: Weight(s, t)
  }

  ghost function Measure(s: State): int {
    Sum(Weights(s), s.nextId)
  }

  lemma InitialMeasure()
    ensures Measure(INITIAL) == 0
  {
  }

  lemma MeasureNonNegative(s: State)
    requires Inv(s)
    ensures Measure(s) >= 0
  {
    forall i: nat | i < s.nextId
      ensures At(Weights(s), i) >= 0
    {
      assert i in s.graph ==> TaskOk(s, i);
    }
    SumNonNegative(Weights(s), s.nextId);
  }

  lemma OwnWeightDrops(s: State, step: Step)
    requires Inv(s) && Enabled(s, step) && !step.Submit?
    ensures step.id in Apply(s, step).graph
    ensures Weight(Apply(s, step), step.id) < Weight(s, step.id)
  {
    var s' := Apply(s, step);
    assert TaskOk(s, step.id);
    assert TaskOk(s', step.id) by {
      StepKeeps(s, step);
      StepGraphKeys(s, step);
    }
    match step
    case Tick(t) =>
    case Start(t) =>
    case Return(t, ok) =>
    case Settle(t) =>
      if s.graph[t].status.Failed? && s.graph[t].CanRetry() {
        assert StageOf(s', t) == InQueue;
      } else {
        assert StageOf(s', t) == Done;
      }
  }

  lemma AsideWeight(s: State, s': State, u: TaskId)
    requires Aside(s, s', u)
    ensures Weight(s', u) == Weight(s, u)
  {
  }

  lemma StepGraphKeys(s: State, step: Step)
    requires Inv(s) && Enabled(s, step)
    ensures forall t :: t in Apply(s, step).graph <==> t in s.graph || (step.Submit? && t == s.nextId)
  {
    hide Apply, Enabled;
    StepKeeps(s, step);
    StepExtends(s, step);
  }

  /** Every scheduler tick, start, return and settling uses up some of the measure. */
  lemma ProductiveStepsUseUpMeasure(s: State, step: Step)
    requires Inv(s) && Enabled(s, step) && !step.Submit?
    ensures Measure(Apply(s, step)) < Measure(s)
  {
    var s' := Apply(s, step);
    StepExtends(s, step);
    StepGraphKeys(s, step);
    OwnWeightDrops(s, step);
    forall i: nat | i < s.nextId && i != step.id
      ensures At(Weights(s'), i) == At(Weights(s), i)
    {
      if i in s.graph {
        StepAside(s, step, i);
        AsideWeight(s, s', i);
      }
    }
    SumChange(Weights(s), Weights(s'), step.id, s.nextId);
  }

  lemma SubmissionGrantsMeasure(s: State, ds: seq<TaskId>, maxRetries: nat)
    requires Inv(s)
    ensures Measure(Apply(s, Submit(ds, maxRetries))) <= Measure(s) + 4 * (maxRetries + 1)
  {
    var step := Submit(ds, maxRetries);
    var id, s' := s.nextId, Apply(s, step);
    StepGraphKeys(s, step);
    StepExtends(s, step);
    forall i: nat | i < id
      ensures At(Weights(s'), i) == At(Weights(s), i)
    {
      if i in s.graph {
        StepAside(s, step, i);
        AsideWeight(s, s', i);
      }
    }
    SumSame(Weights(s), Weights(s'), id);
    NewWeight(s, ds, maxRetries);
  }

  lemma NewWeight(s: State, ds: seq<TaskId>, maxRetries: nat)
    requires Inv(s)
    ensures var s' := Apply(s, Submit(ds, maxRetries));
            s.nextId in s'.graph && Weight(s', s.nextId) <= 4 * (maxRetries + 1)
  {
    RecordedAt(s, ds, maxRetries);
    assert s.nextId !in s.graph;
  }

  // ---- runs

  /** states[i + 1] is what steps[i] makes of states[i]. */
  ghost predicate Run(states: seq<State>, steps: seq<Step>) {
    && |states| == |steps| + 1
    && states[0] == INITIAL
    && (forall i {:trigger StepAtIndex(states, steps, i)} :: 0 <= i < |steps| ==> StepAtIndex(states, steps, i))
  }

  ghost predicate StepAtIndex(states: seq<State>, steps: seq<Step>, i: nat)
    requires |states| == |steps| + 1 && i < |steps|
  {
    Enabled(states[i], steps[i]) && states[i + 1] == Apply(states[i], steps[i])
  }

  lemma {:induction false} RunOk(states: seq<State>, steps: seq<Step>, i: nat)
    requires Run(states, steps) && i < |states|
    ensures Inv(states[i])
  {
    hide Inv, Enabled, Apply;
    if i == 0 {
      InitialOk();
    } else {
      RunOk(states, steps, i - 1);
      assert StepAtIndex(states, steps, i - 1);
      StepKeeps(states[i - 1], steps[i - 1]);
    }
  }

  lemma {:induction false} RunKeeps(states: seq<State>, steps: seq<Step>, i: nat, j: nat)
    requires Run(states, steps) && i <= j < |states|
    ensures Keeps(states[i], states[j])
    decreases j
  {
    hide Inv, Enabled, Apply;
    RunOk(states, steps, i);
    if i == j {
      KeepsSelf(states[i]);
    } else {
      RunKeeps(states, steps, i, j - 1);
      RunOk(states, steps, j - 1);
      assert StepAtIndex(states, steps, j - 1);
      StepKeepsHistory(states[j - 1], steps[j - 1]);
      KeepsTransitive(states[i], states[j - 1], states[j]);
    }
  }

  ghost function Productive(steps: seq<Step>): nat {
    if steps == [] then 0 else Productive(steps[..|steps| - 1]) + if steps[|steps| - 1].Submit? then 0 else 1
  }

  /** Four steps for every attempt the submissions allow. */
  ghost function Granted(steps: seq<Step>): nat {
    if steps == [] then 0 else
      Granted(steps[..|steps| - 1]) + if steps[|steps| - 1].Submit? then 4 * (steps[|steps| - 1].maxRetries + 1) else 0
  }

  lemma RunPrefix(states: seq<State>, steps: seq<Step>)
    requires Run(states, steps) && steps != []
    ensures Run(states[..|steps|], steps[..|steps| - 1])
  {
    var states', steps' := states[..|steps|], steps[..|steps| - 1];
    forall i | 0 <= i < |steps'|
      ensures StepAtIndex(states', steps', i)
    {
      assert StepAtIndex(states, steps, i);
    }
  }

  /** Termination: a run takes no more productive steps than its submissions grant, so once
      submissions stop the executor comes to rest; with bounded queues see LifecycleJam. */
  lemma {:induction false} RunsComeToRest(states: seq<State>, steps: seq<Step>)
    requires Run(states, steps)
    ensures Productive(steps) + Measure(states[|steps|]) <= Granted(steps)
    ensures Productive(steps) <= Granted(steps)
    decreases |steps|
  {
    hide Inv, Enabled, Apply, Measure;
    InitialMeasure();
    var n := |steps|;
    RunOk(states, steps, n);
    MeasureNonNegative(states[n]);
    if n > 0 {
      RunPrefix(states, steps);
      RunsComeToRest(states[..n], steps[..n - 1]);
      RunOk(states, steps, n - 1);
      assert StepAtIndex(states, steps, n - 1);
      match steps[n - 1]
      case Submit(ds, maxRetries) => SubmissionGrantsMeasure(states[n - 1], ds, maxRetries);
      case _ => ProductiveStepsUseUpMeasure(states[n - 1], steps[n - 1]);
    }
  }
}
