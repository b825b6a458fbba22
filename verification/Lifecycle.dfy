/** include/task_engine/task_executor.hpp as a step relation: what a submission, a scheduler tick,
    a worker taking a task, the return of `execute` and the completion hooks do to the executor. */
module Lifecycle {
  import opened Sequences
  import opened Tasks
  import opened Cycles
  import opened GraphModel
  import opened MonitorMetrics

  /** `terminal` and `late` are history: the terminal events delivered so far, in order, and how
      many entries of a task's dependency list had been delivered before it was submitted. */
  datatype State = State(
    graph: Graph,
    nextId: TaskId,
    queued: multiset<TaskId>,
    running: multiset<TaskId>,
    settling: multiset<TaskId>,
    metrics: Metrics,
    terminal: seq<TaskId>,
    late: map<TaskId, nat>)

  datatype Step =
    | Submit(dependencies: seq<TaskId>, maxRetries: nat)
    | Tick(id: TaskId)
    | Start(id: TaskId)
    | Return(id: TaskId, ok: bool)
    | Settle(id: TaskId)

  const INITIAL := State(map[], 1, multiset{}, multiset{}, multiset{}, Metrics(0, 0, 0, 0, 0), [], map[])

  ghost predicate Enabled(s: State, step: Step) {
    match step
    case Submit(_, _) => true
    case Tick(t) => t in s.graph && s.graph[t].IsReady()
    case Start(t) => t in s.graph && t in s.queued
    case Return(t, _) => t in s.graph && t in s.running
    case Settle(t) => t in s.graph && t in s.settling
  }

  ghost function Apply(s: State, step: Step): State
    requires Enabled(s, step)
  {
    match step
    case Submit(dependencies, maxRetries) => ApplySubmit(s, dependencies, maxRetries)
    case Tick(t) => Enqueue(s, t)
    case Start(t) => ApplyStart(s, t)
    case Return(t, ok) => ApplyReturn(s, t, ok)
    case Settle(t) => if s.graph[t].status.Completed? then ApplySuccess(s, t) else ApplyFailure(s, t)
  }

  /** `try_mark_enqueued` followed by `ThreadPool::submit`, which finds room here; LifecyclePool has
      the threads that wait for room. */
  ghost function Enqueue(s: State, t: TaskId): State
    requires t in s.graph
  {
    s.(graph := s.graph[t := s.graph[t].(enqueued := true)], queued := s.queued + multiset{t})
  }

  ghost function Recorded(s: State, dependencies: seq<TaskId>, maxRetries: nat): State {
    var g := AddDependencies(AddTask(s.graph, s.nextId, maxRetries), s.nextId, dependencies);
    var known := Known(AddTask(s.graph, s.nextId, maxRetries), dependencies);
    s.(graph := g,
       nextId := s.nextId + 1,
       metrics := s.metrics.Submission(),
       late := s.late[s.nextId := LateEntries(known, s.terminal)])
  }

  ghost function LateEntries(known: seq<TaskId>, terminal: seq<TaskId>): (n: nat)
    ensures n == |known| - Open(known, Elements(terminal))
  {
    OpenBound(known, Elements(terminal));
    |known| - Open(known, Elements(terminal))
  }

  ghost function ApplySubmit(s: State, dependencies: seq<TaskId>, maxRetries: nat): State {
    var s' := Recorded(s, dependencies, maxRetries);
    AddDependenciesKeys(AddTask(s.graph, s.nextId, maxRetries), s.nextId, dependencies);
    if s'.graph[s.nextId].IsReady() then Enqueue(s', s.nextId) else s'
  }

  /** A worker takes the task, `on_start` runs and `execute` begins. */
  ghost function ApplyStart(s: State, t: TaskId): State
    requires t in s.graph
  {
    s.(graph := s.graph[t := s.graph[t].Begun()],
       queued := s.queued - multiset{t},
       running := s.running + multiset{t},
       metrics := s.metrics.Started())
  }

  /** `execute` returns or throws. */
  ghost function ApplyReturn(s: State, t: TaskId, ok: bool): State
    requires t in s.graph
  {
    s.(graph := s.graph[t := s.graph[t].Ended(ok)],
       running := s.running - multiset{t},
       settling := s.settling + multiset{t})
  }

  /** `notify_task_completed` and `clear_enqueued_flag`. */
  ghost function Finish(s: State, t: TaskId): State
    requires t in s.graph
  {
    var g := NotifyCompleted(s.graph, t);
    s.(graph := g[t := g[t].(enqueued := false)], terminal := s.terminal + [t])
  }

  ghost function Leave(s: State, t: TaskId, m: Metrics): State {
    s.(settling := s.settling - multiset{t}, metrics := m)
  }

  /** `on_success`. */
  ghost function ApplySuccess(s: State, t: TaskId): State
    requires t in s.graph
  {
    Finish(Leave(s, t, s.metrics.Completion()), t)
  }

  /** `on_failure` with `handle_failure`. */
  ghost function ApplyFailure(s: State, t: TaskId): State
    requires t in s.graph
  {
    if s.graph[t].CanRetry() then
      var s1 := Leave(s, t, s.metrics.Failure().Retry());
      Enqueue(s1.(graph := s1.graph[t := s1.graph[t].ResetForRetry()]), t)
    else
      Finish(Leave(s, t, s.metrics.Failure()), t)
  }

  // ---- the invariant

  datatype Stage = Idle | InQueue | Executing | Returned | Done

  ghost function Copies(s: State, t: TaskId): nat {
    s.queued[t] + s.running[t] + s.settling[t]
  }

  ghost function StageOf(s: State, t: TaskId): Stage {
    if t in s.queued then InQueue else if t in s.running then Executing else if t in s.settling then Returned
    else if t in s.terminal then Done else Idle
  }

  /** The status of a task that waits for its next attempt: Ready only if its last dependency has been
      delivered and it has not been tried yet. */
  ghost function Awaiting(v: TaskView): TaskStatus {
    if v.dependencies != [] && v.dependenciesCount == 0 && v.attempts == 0 then Ready else Pending
  }

  ghost predicate FitsStage(v: TaskView, stage: Stage) {
    match stage
    case Idle => v.status == Awaiting(v) && !v.enqueued && v.attempts == 0
    case InQueue => v.status == Awaiting(v) && v.enqueued && v.dependenciesCount == 0 && v.attempts <= v.maxRetries
    case Executing => v.status.Running? && v.enqueued && v.dependenciesCount == 0 && 1 <= v.attempts <= v.maxRetries + 1
    case Returned => (v.status.Completed? || v.status.Failed?) && v.enqueued && v.dependenciesCount == 0
                     && 1 <= v.attempts <= v.maxRetries + 1
    case Done => !v.enqueued && v.dependenciesCount == 0 && 1 <= v.attempts <= v.maxRetries + 1
                 && (v.status.Completed? || (v.status.Failed? && v.attempts == v.maxRetries + 1))
  }

  /** What holds of one task: a single copy at most, flags that match where the copy is, and a
      counter that never forgets a dependency entry still to be notified. */
  ghost predicate TaskOk(s: State, t: TaskId)
    requires t in s.graph && t in s.late
  {
    var v := s.graph[t];
    && !v.cancelled
    && (forall d :: d in v.dependencies ==> d <= t)
    && v.dependenciesCount == Open(v.dependencies, Elements(s.terminal)) + s.late[t]
    && Copies(s, t) <= 1
    && (t in s.terminal ==> Copies(s, t) == 0)
    && FitsStage(v, StageOf(s, t))
  }

  ghost predicate Base(s: State) {
    && WellFormed(s.graph)
    && s.late.Keys == s.graph.Keys
    && s.nextId >= 1
    && (forall t :: t in s.graph <==> 1 <= t < s.nextId)
    && (forall t :: t in s.queued || t in s.running || t in s.settling || t in s.terminal ==> t in s.graph)
    && NoDuplicates(s.terminal)
    && DependenciesFirst(DepsOf(s.graph), s.terminal)
  }

  ghost predicate TasksOk(s: State)
    requires s.late.Keys == s.graph.Keys
  {
    forall t {:trigger TaskOk(s, t)} :: t in s.graph ==> TaskOk(s, t)
  }

  ghost predicate Inv(s: State) {
    Base(s) && TasksOk(s)
  }

  lemma InitialOk()
    ensures Inv(INITIAL)
  {
  }

  // ---- preservation, one step at a time

  lemma DepsUnchanged(g: Graph, h: Graph, order: seq<TaskId>)
    requires DependenciesFirst(DepsOf(g), order)
    requires forall t :: t in g ==> t in h && h[t].dependencies == g[t].dependencies
    ensures DependenciesFirst(DepsOf(h), order)
  {
    forall i | 0 <= i < |order|
      ensures PlacedAfter(DepsOf(h), order, i)
    {
      assert PlacedAfter(DepsOf(g), order, i);
    }
  }

  /** Changing flags of one task touches no edge. */
  lemma FlagsKeepShape(g: Graph, t: TaskId, v: TaskView)
    requires WellFormed(g) && t in g
    requires v.dependencies == g[t].dependencies && v.dependents == g[t].dependents
    ensures WellFormed(g[t := v])
  {
    var h := g[t := v];
    forall u | u in h
      ensures NeighboursLive(h, u)
    {
      assert NeighboursLive(g, u);
    }
    forall u, d | u in h && d in h
      ensures EdgeMirrored(h, u, d)
    {
      assert EdgeMirrored(g, u, d);
    }
  }

  lemma FlagsKeepBase(s: State, s': State, t: TaskId, v: TaskView)
    requires Base(s) && t in s.graph
    requires v.dependencies == s.graph[t].dependencies && v.dependents == s.graph[t].dependents
    requires s'.graph == s.graph[t := v] && s'.nextId == s.nextId && s'.terminal == s.terminal && s'.late == s.late
    requires forall u :: u in s'.queued || u in s'.running || u in s'.settling ==>
               u in s.queued || u in s.running || u in s.settling || u == t
    ensures Base(s')
  {
    FlagsKeepShape(s.graph, t, v);
    DepsUnchanged(s.graph, s'.graph, s.terminal);
  }

  /** u is the same in both states, wherever it is. */
  ghost predicate SameAt(s: State, s': State, u: TaskId) {
    && u in s.graph && u in s'.graph && s'.graph[u] == s.graph[u]
    && u in s.late && u in s'.late && s'.late[u] == s.late[u]
    && s'.queued[u] == s.queued[u] && s'.running[u] == s.running[u] && s'.settling[u] == s.settling[u]
    && s'.terminal == s.terminal
  }

  lemma SameIsOk(s: State, s': State, u: TaskId)
    requires SameAt(s, s', u)
    requires TaskOk(s, u)
    ensures TaskOk(s', u)
  {
  }

  lemma InvAt(s: State, t: TaskId)
    requires Inv(s) && t in s.graph
    ensures Base(s) && t in s.late && TaskOk(s, t)
  {
  }

  /** A step that moves t and changes nothing but its flags keeps the invariant if t stays in order. */
  lemma MoveKeeps(s: State, s': State, t: TaskId, v: TaskView)
    requires Inv(s) && t in s.graph
    requires v.dependencies == s.graph[t].dependencies && v.dependents == s.graph[t].dependents
    requires s'.graph == s.graph[t := v] && s'.nextId == s.nextId && s'.terminal == s.terminal && s'.late == s.late
    requires forall u :: u in s'.queued || u in s'.running || u in s'.settling ==>
               u in s.queued || u in s.running || u in s.settling || u == t
    requires forall u :: u in s.graph && u != t ==> SameAt(s, s', u)
    requires t in s'.late && TaskOk(s', t)
    ensures Inv(s')
  {
    hide TaskOk;
    FlagsKeepBase(s, s', t, v);
    forall u | u in s'.graph
      ensures TaskOk(s', u)
    {
      if u != t {
        assert TaskOk(s, u);
        SameIsOk(s, s', u);
      }
    }
  }

  lemma TickFits(s: State, t: TaskId)
    requires Enabled(s, Tick(t)) && t in s.late && TaskOk(s, t)
    ensures TaskOk(Enqueue(s, t), t)
  {
  }

  lemma TickKeeps(s: State, t: TaskId)
    requires Inv(s) && Enabled(s, Tick(t))
    ensures Inv(Apply(s, Tick(t)))
  {
    hide Inv, TaskOk, FitsStage;
    InvAt(s, t);
    TickFits(s, t);
    MoveKeeps(s, Enqueue(s, t), t, Enqueue(s, t).graph[t]);
  }

  lemma StartFits(s: State, t: TaskId)
    requires Enabled(s, Start(t)) && t in s.late && TaskOk(s, t)
    ensures TaskOk(ApplyStart(s, t), t)
  {
  }

  lemma StartKeeps(s: State, t: TaskId)
    requires Inv(s) && Enabled(s, Start(t))
    ensures Inv(Apply(s, Start(t)))
  {
    hide Inv, TaskOk, FitsStage;
    InvAt(s, t);
    StartFits(s, t);
    MoveKeeps(s, ApplyStart(s, t), t, ApplyStart(s, t).graph[t]);
  }

  lemma ReturnFits(s: State, t: TaskId, ok: bool)
    requires Enabled(s, Return(t, ok)) && t in s.late && TaskOk(s, t)
    ensures TaskOk(ApplyReturn(s, t, ok), t)
  {
  }

  lemma ReturnKeeps(s: State, t: TaskId, ok: bool)
    requires Inv(s) && Enabled(s, Return(t, ok))
    ensures Inv(Apply(s, Return(t, ok)))
  {
    hide Inv, TaskOk, FitsStage;
    InvAt(s, t);
    ReturnFits(s, t, ok);
    MoveKeeps(s, ApplyReturn(s, t, ok), t, ApplyReturn(s, t, ok).graph[t]);
  }

  lemma RetryFits(s: State, t: TaskId)
    requires Enabled(s, Settle(t)) && t in s.late && TaskOk(s, t)
    requires s.graph[t].status.Failed? && s.graph[t].CanRetry()
    ensures TaskOk(ApplyFailure(s, t), t)
  {
  }

  lemma RetryKeeps(s: State, t: TaskId)
    requires Inv(s) && Enabled(s, Settle(t))
    requires s.graph[t].status.Failed? && s.graph[t].CanRetry()
    ensures Inv(ApplyFailure(s, t))
  {
    hide Inv, TaskOk, FitsStage;
    InvAt(s, t);
    RetryFits(s, t);
    MoveKeeps(s, ApplyFailure(s, t), t, ApplyFailure(s, t).graph[t]);
  }

  lemma FinishKeepsOrder(s: State, t: TaskId)
    requires DependenciesFirst(DepsOf(s.graph), s.terminal)
    requires t in s.graph
    requires forall d :: d in s.graph[t].dependencies ==> d in s.terminal
    ensures DependenciesFirst(DepsOf(Finish(s, t).graph), s.terminal + [t])
  {
    var g := DepsOf(s.graph);
    assert DepsOf(Finish(s, t).graph) == g;
    forall i | 0 <= i < |s.terminal + [t]|
      ensures PlacedAfter(g, s.terminal + [t], i)
    {
      if i < |s.terminal| {
        assert PlacedAfter(g, s.terminal, i);
        assert (s.terminal + [t])[..i] == s.terminal[..i];
      } else {
        assert (s.terminal + [t])[..i] == s.terminal;
      }
    }
  }

  lemma FinishKeepsBase(s: State, t: TaskId)
    requires Base(s) && t in s.graph && t !in s.terminal
    requires forall d :: d in s.graph[t].dependencies ==> d in s.terminal
    ensures Base(Finish(s, t))
  {
    NotifyCompletedKeeps(s.graph, t);
    FlagsKeepShape(NotifyCompleted(s.graph, t), t, Finish(s, t).graph[t]);
    FinishKeepsOrder(s, t);
  }

  lemma FinishKeepsOther(s: State, t: TaskId, u: TaskId)
    requires WellFormed(s.graph) && s.late.Keys == s.graph.Keys
    requires t in s.graph && u in s.graph && t != u && t !in s.terminal
    requires TaskOk(s, u)
    ensures u in Finish(s, t).graph && TaskOk(Finish(s, t), u)
  {
    var v, v' := s.graph[u], Finish(s, t).graph[u];
    assert EdgeMirrored(s.graph, u, t);
    OpenAfter(v.dependencies, Elements(s.terminal), t);
    assert Elements(s.terminal + [t]) == Elements(s.terminal) + {t};
    assert v' == v.Notified(BackEdges(s.graph, u, t));
  }

  /** A task about to finish: its copy is gone, its counter is zero, its status is final. */
  ghost predicate Finishing(s: State, t: TaskId)
    requires t in s.graph && t in s.late
  {
    var v := s.graph[t];
    && !v.cancelled
    && (forall d :: d in v.dependencies ==> d <= t)
    && v.dependenciesCount == 0 == Open(v.dependencies, Elements(s.terminal)) + s.late[t]
    && 1 <= v.attempts <= v.maxRetries + 1
    && (v.status.Completed? || (v.status.Failed? && v.attempts == v.maxRetries + 1))
    && Copies(s, t) == 0 && t !in s.terminal
  }

  lemma FinishKeepsSelf(s: State, t: TaskId)
    requires Mirrored(s.graph)
    requires t in s.graph && t in s.late && Finishing(s, t)
    ensures TaskOk(Finish(s, t), t)
  {
    var v := s.graph[t];
    OpenZero(v.dependencies, Elements(s.terminal));
    assert EdgeMirrored(s.graph, t, t);
    assert t !in v.dependencies;
    OpenAfter(v.dependencies, Elements(s.terminal), t);
    assert Elements(s.terminal + [t]) == Elements(s.terminal) + {t};
  }

  lemma FinishKeeps(s: State, t: TaskId)
    requires Base(s) && t in s.graph && Finishing(s, t)
    requires forall u {:trigger TaskOk(s, u)} :: u in s.graph && u != t ==> TaskOk(s, u)
    ensures Inv(Finish(s, t))
  {
    OpenZero(s.graph[t].dependencies, Elements(s.terminal));
    FinishKeepsBase(s, t);
    forall u | u in Finish(s, t).graph
      ensures TaskOk(Finish(s, t), u)
    {
      if u != t {
        assert TaskOk(s, u);
        FinishKeepsOther(s, t, u);
      } else {
        FinishKeepsSelf(s, t);
      }
    }
  }

  lemma SuccessKeeps(s: State, t: TaskId)
    requires Inv(s) && Enabled(s, Settle(t))
    requires s.graph[t].status.Completed?
    ensures Inv(ApplySuccess(s, t))
  {
    TakenOut(s, t, s.metrics.Completion());
    FinishKeeps(Leave(s, t, s.metrics.Completion()), t);
  }

  lemma LastFailureKeeps(s: State, t: TaskId)
    requires Inv(s) && Enabled(s, Settle(t))
    requires s.graph[t].status.Failed? && !s.graph[t].CanRetry()
    ensures Inv(ApplyFailure(s, t))
  {
    TakenOut(s, t, s.metrics.Failure());
    FinishKeeps(Leave(s, t, s.metrics.Failure()), t);
  }

  lemma SettleKeeps(s: State, t: TaskId)
    requires Inv(s) && Enabled(s, Settle(t))
    ensures Inv(Apply(s, Settle(t)))
  {
    assert TaskOk(s, t);
    if s.graph[t].status.Completed? {
      SuccessKeeps(s, t);
    } else if s.graph[t].CanRetry() {
      RetryKeeps(s, t);
    } else {
      LastFailureKeeps(s, t);
    }
  }

  lemma TakenOut(s: State, t: TaskId, m: Metrics)
    requires Inv(s) && Enabled(s, Settle(t))
    requires s.graph[t].status.Failed? ==> !s.graph[t].CanRetry()
    ensures var s1 := Leave(s, t, m);
            && Base(s1) && Finishing(s1, t)
            && forall u {:trigger TaskOk(s1, u)} :: u in s1.graph && u != t ==> TaskOk(s1, u)
  {
    var s1 := Leave(s, t, m);
    InvAt(s, t);
    TakenOutFinishes(s, t, m);
    hide TaskOk, Finishing;
    forall u | u in s1.graph && u != t
      ensures TaskOk(s1, u)
    {
      InvAt(s, u);
      SameIsOk(s, s1, u);
    }
  }

  lemma TakenOutFinishes(s: State, t: TaskId, m: Metrics)
    requires Enabled(s, Settle(t)) && t in s.late && TaskOk(s, t)
    requires s.graph[t].status.Failed? ==> !s.graph[t].CanRetry()
    ensures Finishing(Leave(s, t, m), t)
  {
  }

  lemma {:induction false} KnownIn(g: Graph, ds: seq<TaskId>)
    ensures forall d :: d in Known(g, ds) ==> d in g
  {
    if ds != [] {
      KnownIn(g, ds[1..]);
    }
  }

  /** What recording a submission leaves at the new task and at the others. */
  lemma RecordedAt(s: State, ds: seq<TaskId>, maxRetries: nat)
    requires Base(s)
    ensures var id, s1 := s.nextId, Recorded(s, ds, maxRetries);
            && s1.graph.Keys == s.graph.Keys + {id}
            && s1.graph[id] == NewTask(maxRetries).(dependencies := s1.graph[id].dependencies,
                                                    dependents := s1.graph[id].dependents,
                                                    dependenciesCount := |s1.graph[id].dependencies|)
            && s1.graph[id].dependencies == Known(AddTask(s.graph, id, maxRetries), ds)
            && (forall u :: u in s.graph ==> s1.graph[u] == s.graph[u].(dependents := s1.graph[u].dependents))
  {
    hide WellFormed, DependenciesFirst, OnlyEdgesOf;
    var id, g1 := s.nextId, AddTask(s.graph, s.nextId, maxRetries);
    AddDependenciesKeys(g1, id, ds);
    AddDependenciesAt(g1, id, ds);
    AddDependenciesElsewhere(g1, id, ds, id);
    var g2 := AddDependencies(g1, id, ds);
    assert g2[id].dependencies == [] + Known(g1, ds);
    forall u | u in s.graph
      ensures g2[u] == s.graph[u].(dependents := g2[u].dependents)
    {
      AddDependenciesElsewhere(g1, id, ds, u);
    }
  }

  lemma RecordedElsewhere(s: State, ds: seq<TaskId>, maxRetries: nat)
    ensures var s' := Recorded(s, ds, maxRetries);
            && s'.nextId == s.nextId + 1 && s'.terminal == s.terminal && s'.metrics == s.metrics.Submission()
            && s'.queued == s.queued && s'.running == s.running && s'.settling == s.settling
            && s'.late.Keys == s.late.Keys + {s.nextId}
            && s'.graph == AddDependencies(AddTask(s.graph, s.nextId, maxRetries), s.nextId, ds)
  {
  }

  lemma RecordedKeepsBase(s: State, ds: seq<TaskId>, maxRetries: nat)
    requires Base(s)
    ensures Base(Recorded(s, ds, maxRetries))
  {
    hide WellFormed, Recorded, AddDependencies, AddTask, Known, DependenciesFirst;
    RecordedElsewhere(s, ds, maxRetries);
    RecordedAt(s, ds, maxRetries);
    AddTaskKeeps(s.graph, s.nextId, maxRetries);
    AddDependenciesKeeps(AddTask(s.graph, s.nextId, maxRetries), s.nextId, ds);
    DepsUnchanged(s.graph, Recorded(s, ds, maxRetries).graph, s.terminal);
  }

  lemma RecordedKeepsNew(s: State, ds: seq<TaskId>, maxRetries: nat)
    requires Base(s)
    ensures var s1 := Recorded(s, ds, maxRetries); s.nextId in s1.graph && TaskOk(s1, s.nextId)
  {
    var id := s.nextId;
    RecordedAt(s, ds, maxRetries);
    KnownIn(AddTask(s.graph, id, maxRetries), ds);
    assert id !in s.graph;
    assert Copies(s, id) == 0 && id !in s.terminal;
  }

  lemma RecordedKeepsOld(s: State, ds: seq<TaskId>, maxRetries: nat, u: TaskId)
    requires Inv(s) && u in s.graph
    ensures var s1 := Recorded(s, ds, maxRetries); u in s1.graph && u in s1.late && TaskOk(s1, u)
  {
    InvAt(s, u);
    RecordedAt(s, ds, maxRetries);
  }

  lemma SubmitKeeps(s: State, ds: seq<TaskId>, maxRetries: nat)
    requires Inv(s)
    ensures Inv(Apply(s, Submit(ds, maxRetries)))
  {
    var id, s1 := s.nextId, Recorded(s, ds, maxRetries);
    RecordedAt(s, ds, maxRetries);
    RecordedKeepsBase(s, ds, maxRetries);
    RecordedKeepsNew(s, ds, maxRetries);
    hide TaskOk, Recorded;
    forall u | u in s1.graph
      ensures TaskOk(s1, u)
    {
      if u != id {
        RecordedKeepsOld(s, ds, maxRetries, u);
      }
    }
    if s1.graph[id].IsReady() {
      TickKeeps(s1, id);
    }
  }

  lemma StepKeeps(s: State, step: Step)
    requires Inv(s) && Enabled(s, step)
    ensures Inv(Apply(s, step))
  {
    match step
    case Submit(ds, maxRetries) => SubmitKeeps(s, ds, maxRetries);
    case Tick(t) => TickKeeps(s, t);
    case Start(t) => StartKeeps(s, t);
    case Return(t, ok) => ReturnKeeps(s, t, ok);
    case Settle(t) => SettleKeeps(s, t);
  }
}
