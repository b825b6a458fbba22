/** `wait_for_completion` of include/task_engine/task_executor.hpp: exactly when the answer of
    `all_completed` that lets it return is final. */
module LifecycleAnswers {
  import opened Sequences
  import opened Tasks
  import opened GraphModel
  import opened Lifecycle
  import opened LifecycleRuns
  import opened LifecycleSafety

  /** The steps can follow, and none is a submission. */
  ghost predicate Follow(s: State, steps: seq<Step>)
    decreases |steps|
  {
    steps == [] || (Enabled(s, steps[0]) && !steps[0].Submit? && Follow(Apply(s, steps[0]), steps[1..]))
  }

  ghost function Later(s: State, steps: seq<Step>): State
    requires Follow(s, steps)
    decreases |steps|
  {
    if steps == [] then s else Later(Apply(s, steps[0]), steps[1..])
  }

  /** Whatever the executor still does on its own, everything stays completed. */
  ghost predicate AnswerIsFinal(s: State) {
    forall steps :: Follow(s, steps) ==> AllCompleted(Later(s, steps))
  }

  /** A failed attempt that `handle_failure` is about to retry. */
  ghost predicate RetryPending(s: State, t: TaskId) {
    t in s.graph && t in s.settling && s.graph[t].status.Failed? && s.graph[t].CanRetry()
  }

  lemma OnlySettlings(s: State, step: Step)
    requires Inv(s) && AllCompleted(s) && Enabled(s, step) && !step.Submit?
    ensures step.Settle? && step.id in s.settling
  {
    InvAt(s, step.id);
  }

  lemma SettledStaysCompleted(s: State, t: TaskId)
    requires Inv(s) && AllCompleted(s) && Enabled(s, Settle(t)) && !RetryPending(s, t)
    ensures AllCompleted(Apply(s, Settle(t)))
  {
    var s' := Apply(s, Settle(t));
    AllCompletedIff(s);
    StepKeeps(s, Settle(t));
    StepGraphKeys(s, Settle(t));
    InvAt(s, t);
    hide Inv, TaskOk, AllCompleted, Finish;
    SettledTerminal(s, t);
    AllCompletedIff(s');
  }

  lemma SettledTerminal(s: State, t: TaskId)
    requires Enabled(s, Settle(t)) && t in s.late && TaskOk(s, t) && !RetryPending(s, t)
    ensures Apply(s, Settle(t)).terminal == s.terminal + [t]
    ensures Apply(s, Settle(t)).settling == s.settling - multiset{t}
  {
  }

  lemma NoNewRetry(s: State, t: TaskId, u: TaskId)
    requires Inv(s) && Enabled(s, Settle(t)) && !RetryPending(s, t)
    requires RetryPending(Apply(s, Settle(t)), u)
    ensures RetryPending(s, u)
  {
    StepGraphKeys(s, Settle(t));
    InvAt(s, t);
    SettledTerminal(s, t);
    if u != t {
      SettledOther(s, t, u);
    }
  }

  /** Settling t leaves another task's budget alone and never makes it fail. */
  lemma SettledOther(s: State, t: TaskId, u: TaskId)
    requires Enabled(s, Settle(t)) && !RetryPending(s, t) && u in s.graph && u != t
    requires t in s.late && TaskOk(s, t)
    ensures var v, v' := s.graph[u], Apply(s, Settle(t)).graph[u];
            v'.CanRetry() == v.CanRetry() && (v'.status.Failed? ==> v.status.Failed?)
  {
    var m := if s.graph[t].status.Completed? then s.metrics.Completion() else s.metrics.Failure();
    var s1 := Leave(s, t, m);
    assert Apply(s, Settle(t)) == Finish(s1, t);
    assert Finish(s1, t).graph[u] == s.graph[u].Notified(BackEdges(s.graph, u, t));
  }

  lemma {:induction false} StaysCompleted(s: State, steps: seq<Step>)
    requires Inv(s) && AllCompleted(s) && Follow(s, steps)
    requires forall t {:trigger RetryPending(s, t)} :: !RetryPending(s, t)
    ensures AllCompleted(Later(s, steps))
    decreases |steps|
  {
    hide Inv, AllCompleted, Enabled, Apply, RetryPending;
    if steps != [] {
      var step := steps[0];
      OnlySettlings(s, step);
      var s' := Apply(s, step);
      StepKeeps(s, step);
      SettledStaysCompleted(s, step.id);
      forall u
        ensures !RetryPending(s', u)
      {
        if RetryPending(s', u) {
          NoNewRetry(s, step.id, u);
        }
      }
      StaysCompleted(s', steps[1..]);
    }
  }

  lemma RetryUndoesAnswer(s: State, t: TaskId)
    requires RetryPending(s, t)
    ensures Enabled(s, Settle(t)) && !AllCompleted(Apply(s, Settle(t)))
  {
    var s' := Apply(s, Settle(t));
    assert t in s'.graph && s'.graph[t].status == Pending;
  }

  /** `wait_for_completion` returns on this answer; it is final if and only if no failed attempt is
      still to be retried, which is the test `handle_failure` makes. */
  lemma AnswerIsFinalIff(s: State)
    requires Inv(s) && AllCompleted(s)
    ensures AnswerIsFinal(s) <==> forall t {:trigger RetryPending(s, t)} :: !RetryPending(s, t)
  {
    hide Inv, AllCompleted, Enabled, Apply, RetryPending;
    if t :| RetryPending(s, t) {
      RetryUndoesAnswer(s, t);
      var steps := [Settle(t)];
      assert steps[1..] == [] && Follow(Apply(s, Settle(t)), steps[1..]);
      assert Follow(s, steps) && Later(s, steps) == Apply(s, Settle(t));
    } else {
      forall steps | Follow(s, steps)
        ensures AllCompleted(Later(s, steps))
      {
        StaysCompleted(s, steps);
      }
    }
  }

  // ---- the caller's side

  ghost predicate NoRetries(steps: seq<Step>) {
    forall i :: 0 <= i < |steps| && steps[i].Submit? ==> steps[i].maxRetries == 0
  }

  lemma {:induction false} BudgetsStayZero(states: seq<State>, steps: seq<Step>, i: nat, t: TaskId)
    requires Run(states, steps) && NoRetries(steps) && i < |states| && t in states[i].graph
    ensures states[i].graph[t].maxRetries == 0
    decreases i
  {
    hide Inv, Enabled, Apply;
    if i > 0 {
      var s, step := states[i - 1], steps[i - 1];
      assert StepAtIndex(states, steps, i - 1);
      RunOk(states, steps, i - 1);
      StepGraphKeys(s, step);
      if t in s.graph {
        BudgetsStayZero(states, steps, i - 1, t);
        StepKeepsAt(s, step, t);
      } else {
        NewBudget(s, step.dependencies, step.maxRetries);
      }
    }
  }

  lemma NewBudget(s: State, ds: seq<TaskId>, maxRetries: nat)
    requires Inv(s)
    ensures var s' := Apply(s, Submit(ds, maxRetries));
            s.nextId in s'.graph && s'.graph[s.nextId].maxRetries == maxRetries
  {
    RecordedAt(s, ds, maxRetries);
  }

  /** A caller that allows no retries never gets an early answer. */
  lemma AnswersAreFinalWithoutRetries(states: seq<State>, steps: seq<Step>, i: nat)
    requires Run(states, steps) && NoRetries(steps) && i < |states|
    requires AllCompleted(states[i])
    ensures AnswerIsFinal(states[i])
  {
    hide Inv, Enabled, Apply, AllCompleted, AnswerIsFinal;
    RunOk(states, steps, i);
    forall t
      ensures !RetryPending(states[i], t)
    {
      if t in states[i].graph {
        BudgetsStayZero(states, steps, i, t);
      }
    }
    AnswerIsFinalIff(states[i]);
  }

  /** Only a task that no other task waits for can make the answer early. */
  lemma EarlyAnswersComeFromSinks(s: State, t: TaskId, u: TaskId)
    requires Inv(s) && AllCompleted(s) && RetryPending(s, t) && u in s.graph
    ensures t !in s.graph[u].dependencies
  {
    AllCompletedIff(s);
    InvAt(s, t);
    InvAt(s, u);
    OpenZero(s.graph[u].dependencies, Elements(s.terminal));
  }
}
