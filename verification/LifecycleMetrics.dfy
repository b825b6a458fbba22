/** The counters of PerformanceMonitor, read as a balance over the states of the executor. */
module LifecycleMetrics {
  import opened Sequences
  import opened Tasks
  import opened Cycles
  import opened GraphModel
  import opened MonitorMetrics
  import opened Lifecycle
  import opened LifecycleRuns

  ghost function Successes(s: State): set<TaskId> {
    set t | t in s.graph && t in s.terminal && s.graph[t].status.Completed?
  }

  ghost function FinalFailures(s: State): set<TaskId> {
    set t | t in s.graph && t in s.terminal && s.graph[t].status.Failed?
  }

  ghost function AttemptsMap(s: State): map<TaskId, int> {
    map t | t in s.graph :: s.graph[t].attempts
  }

  /** The attempts started so far, over all tasks. */
  ghost function TotalAttempts(s: State): int {
    Sum(AttemptsMap(s), s.nextId)
  }

  ghost predicate Balanced(s: State) {
    && s.metrics.submitted == s.nextId - 1
    && s.metrics.inflight == |s.running| + |s.settling|
    && TotalAttempts(s) == s.metrics.completed + s.metrics.failed + s.metrics.inflight
    && s.metrics.completed == |Successes(s)|
    && s.metrics.failed - s.metrics.retried == |FinalFailures(s)|
  }

  lemma AttemptsSame(s: State, s': State)
    requires s'.nextId == s.nextId
    requires forall i: nat :: i in s'.graph <==> i in s.graph
    requires forall i :: i in s.graph ==> s'.graph[i].attempts == s.graph[i].attempts
    ensures TotalAttempts(s') == TotalAttempts(s)
  {
    SumSame(AttemptsMap(s), AttemptsMap(s'), s.nextId);
  }

  /** Changing a task that has not finished moves nothing between the two sets. */
  lemma SetsSame(s: State, s': State, t: TaskId)
    requires t in s.graph && t !in s.terminal && s'.terminal == s.terminal
    requires s'.graph.Keys == s.graph.Keys && forall u :: u in s.graph && u != t ==> s'.graph[u] == s.graph[u]
    ensures Successes(s') == Successes(s) && FinalFailures(s') == FinalFailures(s)
  {
  }

  lemma NotTerminal(s: State, t: TaskId)
    requires Inv(s) && (t in s.queued || t in s.running || t in s.settling)
    ensures t in s.graph && t !in s.terminal && t < s.nextId && !s.graph[t].cancelled
  {
    InvAt(s, t);
  }

  /** One more task, which has not been attempted. */
  lemma GrownBalances(s: State, s': State)
    requires Balanced(s) && s'.nextId == s.nextId + 1 && s'.metrics == s.metrics.Submission()
    requires s'.terminal == s.terminal && s'.running == s.running && s'.settling == s.settling
    requires s.nextId !in s.graph && s.nextId !in s.terminal && s'.graph.Keys == s.graph.Keys + {s.nextId}
    requires s'.graph[s.nextId].attempts == 0
    requires forall u :: u in s.graph ==>
             s'.graph[u].status == s.graph[u].status && s'.graph[u].attempts == s.graph[u].attempts
    ensures Balanced(s')
  {
    forall i: nat | i < s.nextId
      ensures At(AttemptsMap(s'), i) == At(AttemptsMap(s), i)
    {
    }
    SumSame(AttemptsMap(s), AttemptsMap(s'), s.nextId);
    assert Successes(s') == Successes(s);
    assert FinalFailures(s') == FinalFailures(s);
  }

  lemma RecordedBalances(s: State, ds: seq<TaskId>, maxRetries: nat)
    requires Base(s) && Balanced(s)
    ensures Balanced(Recorded(s, ds, maxRetries))
  {
    RecordedAt(s, ds, maxRetries);
    RecordedElsewhere(s, ds, maxRetries);
    hide WellFormed, DependenciesFirst, AddDependencies, AddTask, Known, Recorded, Balanced;
    GrownBalances(s, Recorded(s, ds, maxRetries));
  }

  lemma EnqueueBalances(s: State, t: TaskId)
    requires Balanced(s) && t in s.graph
    ensures Balanced(Enqueue(s, t))
  {
    var s' := Enqueue(s, t);
    AttemptsSame(s, s');
    assert Successes(s') == Successes(s);
    assert FinalFailures(s') == FinalFailures(s);
  }

  lemma SubmitBalances(s: State, ds: seq<TaskId>, maxRetries: nat)
    requires Inv(s) && Balanced(s)
    ensures Balanced(Apply(s, Submit(ds, maxRetries)))
  {
    hide Balanced, Base;
    RecordedAt(s, ds, maxRetries);
    RecordedBalances(s, ds, maxRetries);
    hide Recorded, Enqueue;
    EnqueueBalances(Recorded(s, ds, maxRetries), s.nextId);
  }

  lemma TickBalances(s: State, t: TaskId)
    requires Balanced(s) && Enabled(s, Tick(t))
    ensures Balanced(Apply(s, Tick(t)))
  {
    EnqueueBalances(s, t);
  }

  lemma StartBalances(s: State, t: TaskId)
    requires Inv(s) && Balanced(s) && Enabled(s, Start(t))
    ensures Balanced(Apply(s, Start(t)))
  {
    NotTerminal(s, t);
    hide Inv;
    var s' := Apply(s, Start(t));
    forall i: nat | i < s.nextId && i != t
      ensures At(AttemptsMap(s'), i) == At(AttemptsMap(s), i)
    {
    }
    SumChange(AttemptsMap(s), AttemptsMap(s'), t, s.nextId);
    SetsSame(s, s', t);
  }

  /** A step that moves one unfinished task, starting no attempt, and keeps the number in flight
      and the counters of starts and ends in step. */
  lemma MoveBalances(s: State, s': State, t: TaskId)
    requires Balanced(s) && t in s.graph && t !in s.terminal
    requires s'.terminal == s.terminal && s'.nextId == s.nextId && s'.graph.Keys == s.graph.Keys
    requires forall u :: u in s.graph && u != t ==> s'.graph[u] == s.graph[u]
    requires s'.graph[t].attempts == s.graph[t].attempts
    requires var m, m' := s.metrics, s'.metrics;
             && m'.submitted == m.submitted && m'.completed == m.completed
             && m'.failed - m'.retried == m.failed - m.retried
             && m'.inflight - m.inflight == m.failed - m'.failed
             && m'.inflight - m.inflight == |s'.running| + |s'.settling| - |s.running| - |s.settling|
    ensures Balanced(s')
  {
    AttemptsSame(s, s');
    SetsSame(s, s', t);
    hide TotalAttempts, Successes, FinalFailures;
  }

  lemma ReturnBalances(s: State, t: TaskId, ok: bool)
    requires Inv(s) && Balanced(s) && Enabled(s, Return(t, ok))
    ensures Balanced(Apply(s, Return(t, ok)))
  {
    NotTerminal(s, t);
    hide Inv, Balanced;
    MoveBalances(s, ApplyReturn(s, t, ok), t);
  }

  lemma RetryBalances(s: State, t: TaskId)
    requires Inv(s) && Balanced(s) && Enabled(s, Settle(t))
    requires s.graph[t].CanRetry()
    ensures Balanced(ApplyFailure(s, t))
  {
    NotTerminal(s, t);
    hide Inv, Balanced;
    MoveBalances(s, ApplyFailure(s, t), t);
  }

  lemma FinishAt(s: State, t: TaskId, u: TaskId)
    requires t in s.graph && u in s.graph
    ensures u in Finish(s, t).graph && Finish(s, t).graph[u].attempts == s.graph[u].attempts
    ensures s.graph[u].dependenciesCount == 0 ==> Finish(s, t).graph[u].status == s.graph[u].status
    ensures Finish(s, t).graph.Keys == s.graph.Keys && Finish(s, t).terminal == s.terminal + [t]
    ensures Finish(s, t).nextId == s.nextId
  {
    assert NotifyCompleted(s.graph, t)[u] == s.graph[u].Notified(BackEdges(s.graph, u, t));
  }

  lemma DoneHasNoCount(s: State, u: TaskId)
    requires u in s.graph && u in s.late && u in s.terminal && TaskOk(s, u)
    ensures s.graph[u].dependenciesCount == 0
  {
  }

  /** Finishing t adds t to one of the two sets and moves no other task. */
  lemma FinishMoves(s: State, t: TaskId)
    requires Base(s) && t in s.graph && Finishing(s, t)
    requires forall u {:trigger TaskOk(s, u)} :: u in s.graph && u != t ==> TaskOk(s, u)
    ensures Successes(Finish(s, t)) == Successes(s) + if s.graph[t].status.Completed? then {t} else {}
    ensures FinalFailures(Finish(s, t)) == FinalFailures(s) + if s.graph[t].status.Failed? then {t} else {}
    ensures TotalAttempts(Finish(s, t)) == TotalAttempts(s)
    ensures t !in Successes(s) && t !in FinalFailures(s)
  {
    hide Finish, TaskOk;
    var s' := Finish(s, t);
    forall u | u in s.graph
      ensures u in s'.graph && s'.graph[u].attempts == s.graph[u].attempts
      ensures u in s.terminal || u == t ==> s'.graph[u].status == s.graph[u].status
    {
      FinishAt(s, t, u);
      if u != t && u in s.terminal {
        assert TaskOk(s, u);
        DoneHasNoCount(s, u);
      }
    }
    FinishAt(s, t, t);
    AttemptsSame(s, s');
  }

  lemma SuccessBalances(s: State, t: TaskId)
    requires Inv(s) && Balanced(s) && Enabled(s, Settle(t))
    requires s.graph[t].status.Completed?
    ensures Balanced(ApplySuccess(s, t))
  {
    hide Finish, Inv, TaskOk, Base;
    var s1 := Leave(s, t, s.metrics.Completion());
    TakenOut(s, t, s.metrics.Completion());
    FinishMoves(s1, t);
    LeaveSame(s, t, s.metrics.Completion());
    FinishSame(s1, t);
  }

  lemma LastFailureBalances(s: State, t: TaskId)
    requires Inv(s) && Balanced(s) && Enabled(s, Settle(t))
    requires s.graph[t].status.Failed? && !s.graph[t].CanRetry()
    ensures Balanced(ApplyFailure(s, t))
  {
    hide Finish, Inv, TaskOk, Base;
    var s1 := Leave(s, t, s.metrics.Failure());
    TakenOut(s, t, s.metrics.Failure());
    FinishMoves(s1, t);
    LeaveSame(s, t, s.metrics.Failure());
    FinishSame(s1, t);
  }

  lemma LeaveSame(s: State, t: TaskId, m: Metrics)
    ensures Successes(Leave(s, t, m)) == Successes(s) && FinalFailures(Leave(s, t, m)) == FinalFailures(s)
    ensures TotalAttempts(Leave(s, t, m)) == TotalAttempts(s)
  {
    assert AttemptsMap(Leave(s, t, m)) == AttemptsMap(s);
  }

  lemma FinishSame(s: State, t: TaskId)
    requires t in s.graph
    ensures var s' := Finish(s, t);
            s'.metrics == s.metrics && s'.nextId == s.nextId && s'.running == s.running && s'.settling == s.settling
  {
  }

  lemma StepBalances(s: State, step: Step)
    requires Inv(s) && Balanced(s) && Enabled(s, step)
    ensures Balanced(Apply(s, step))
  {
    match step
    case Submit(ds, maxRetries) => SubmitBalances(s, ds, maxRetries);
    case Tick(t) => TickBalances(s, t);
    case Start(t) => StartBalances(s, t);
    case Return(t, ok) => ReturnBalances(s, t, ok);
    case Settle(t) => SettleBalances(s, t);
  }

  lemma SettleBalances(s: State, t: TaskId)
    requires Inv(s) && Balanced(s) && Enabled(s, Settle(t))
    ensures Balanced(Apply(s, Settle(t)))
  {
    hide Balanced, ApplySuccess, ApplyFailure;
    assert TaskOk(s, t);
    if s.graph[t].status.Completed? {
      SuccessBalances(s, t);
    } else if s.graph[t].CanRetry() {
      RetryBalances(s, t);
    } else {
      LastFailureBalances(s, t);
    }
  }

  lemma {:induction false} RunBalanced(states: seq<State>, steps: seq<Step>, i: nat)
    requires Run(states, steps) && i < |states|
    ensures Balanced(states[i])
  {
    hide Inv, Enabled, Apply;
    if i == 0 {
      assert Successes(INITIAL) == {} && FinalFailures(INITIAL) == {};
    } else {
      RunBalanced(states, steps, i - 1);
      RunOk(states, steps, i - 1);
      assert StepAtIndex(states, steps, i - 1);
      StepBalances(states[i - 1], steps[i - 1]);
    }
  }

  ghost function Unfinished(s: State): set<TaskId> {
    set t | t in s.graph && t !in s.terminal
  }

  /** Conservation in every state of every run: what was submitted is completed, finally failed or
      unfinished; what was started is completed, failed or in flight; and the tasks in flight are
      those with an attempt under way. */
  lemma MetricsConservation(states: seq<State>, steps: seq<Step>, i: nat)
    requires Run(states, steps) && i < |states|
    ensures var s := states[i]; var m := s.metrics;
            && m.submitted == |s.graph| == m.completed + (m.failed - m.retried) + |Unfinished(s)|
            && TotalAttempts(s) == m.completed + m.failed + m.inflight
            && m.completed == |Successes(s)|
            && m.failed - m.retried == |FinalFailures(s)|
            && m.inflight == |s.running| + |s.settling|
  {
    hide Enabled, Apply;
    RunOk(states, steps, i);
    RunBalanced(states, steps, i);
    var s := states[i];
    forall t | t in s.graph
      ensures t in s.terminal ==> s.graph[t].status.Completed? || s.graph[t].status.Failed?
    {
      assert TaskOk(s, t);
    }
    assert s.graph.Keys == Successes(s) + FinalFailures(s) + Unfinished(s);
    assert Successes(s) !! FinalFailures(s) && (Successes(s) + FinalFailures(s)) !! Unfinished(s);
    assert |s.graph| == |s.graph.Keys|;
    IdsBelow(s.graph.Keys, s.nextId);
  }

  lemma {:induction false} IdsBelow(ids: set<TaskId>, n: nat)
    requires n >= 1 && forall t :: t in ids <==> 1 <= t < n
    ensures |ids| == n - 1
  {
    if n == 1 {
      assert ids == {};
    } else {
      IdsBelow(ids - {n - 1}, n - 1);
    }
  }
}
