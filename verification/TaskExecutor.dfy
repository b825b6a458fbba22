/** include/task_engine/task_executor.hpp: the executor object, proved to take the steps of the
    Lifecycle relation. The pool's queues are seen here as one bag of task ids, which LifecyclePool takes
    apart. */
module TaskExecutors {
  import opened Arithmetic
  import opened Options
  import opened Sequences
  import opened Tasks
  import opened GraphModel
  import opened PerformanceMonitors
  import opened DependencyGraphs
  import opened Lifecycle

  lemma {:induction false} AddDependenciesSnoc(g: Graph, t: TaskId, ds: seq<TaskId>, d: TaskId)
    ensures AddDependencies(g, t, ds + [d]) == GraphModel.AddDependency(AddDependencies(g, t, ds), t, d)
  {
    if ds == [] {
      assert [d][1..] == [];
    } else {
      assert (ds + [d])[1..] == ds[1..] + [d];
      AddDependenciesSnoc(GraphModel.AddDependency(g, t, ds[0]), t, ds[1..], d);
    }
  }

  /** One scheduler pass: a tick for each id in turn. */
  ghost predicate Ticks(s: State, ids: seq<TaskId>, s': State)
    decreases |ids|
  {
    if ids == [] then s' == s else
      Enabled(s, Tick(ids[0])) && Ticks(Apply(s, Tick(ids[0])), ids[1..], s')
  }

  lemma {:induction false} TicksKeep(s: State, ids: seq<TaskId>, s': State)
    requires Inv(s) && Ticks(s, ids, s')
    ensures Inv(s')
    decreases |ids|
  {
    hide Inv;
    if ids != [] {
      StepKeeps(s, Tick(ids[0]));
      TicksKeep(Apply(s, Tick(ids[0])), ids[1..], s');
    }
  }

  lemma TicksNone(s: State)
    ensures Ticks(s, [], s)
  {
  }

  lemma {:induction false} TicksSnoc(s: State, ids: seq<TaskId>, s1: State, t: TaskId)
    requires Ticks(s, ids, s1) && Enabled(s1, Tick(t))
    ensures Ticks(s, ids + [t], Apply(s1, Tick(t)))
    decreases |ids|
  {
    hide Apply, Enabled;
    if ids == [] {
      assert [t][1..] == [];
    } else {
      assert (ids + [t])[1..] == ids[1..] + [t];
      TicksSnoc(Apply(s, Tick(ids[0])), ids[1..], s1, t);
    }
  }

  class TaskExecutor {
    const graph: DependencyGraph
    var nextTaskId: TaskId
    var queued: multiset<TaskId>
    var running: multiset<TaskId>
    var settling: multiset<TaskId>
    const monitor: PerformanceMonitor
    ghost var terminal: seq<TaskId>
    ghost var late: map<TaskId, nat>

    ghost function View(): State
      reads this, graph, graph.tasks.Values, monitor
    {
      State(graph.View(), nextTaskId, queued, running, settling, monitor.metrics, terminal, late)
    }

    ghost predicate Valid()
      reads this, graph, graph.tasks.Values, monitor
    {
      graph.Linked() && Inv(View())
    }

    constructor ()
      ensures Valid() && View() == INITIAL
      ensures fresh(graph) && fresh(monitor)
    {
      graph := new DependencyGraph();
      nextTaskId := 1;
      queued, running, settling := multiset{}, multiset{}, multiset{};
      monitor := new PerformanceMonitor();
      terminal, late := [], map[];
    }

    /** The graph after the flags of one task have been changed in place. */
    twostate lemma FlagsView(id: TaskId)
      requires old(graph.Linked()) && id in graph.tasks && graph.tasks == old(graph.tasks)
      requires forall t :: t in graph.tasks && t != id ==> unchanged(graph.tasks[t])
      requires graph.tasks[id].dependencies == old(graph.tasks[id].dependencies)
      requires graph.tasks[id].dependents == old(graph.tasks[id].dependents)
      ensures graph.Linked()
      ensures graph.View() == old(graph.View())[id := graph.tasks[id].View()]
    {
      graph.ViewIs(old(graph.View())[id := graph.tasks[id].View()]);
    }

    /** The edges of a submission: one `add_dependency` for each id named. */
    method AddDependencies(task: Task, dependencies: seq<TaskId>)
      requires graph.Linked() && task.id in graph.tasks && graph.tasks[task.id] == task
      modifies graph.tasks.Values
      ensures graph.Linked()
      ensures graph.View() == GraphModel.AddDependencies(old(graph.View()), task.id, dependencies)
    {
      ghost var g := graph.View();
      for j := 0 to |dependencies|
        invariant graph.Linked()
        invariant graph.View() == GraphModel.AddDependencies(g, task.id, dependencies[..j])
      {
        assert dependencies[..j + 1] == dependencies[..j] + [dependencies[j]];
        AddDependenciesSnoc(g, task.id, dependencies[..j], dependencies[j]);
        graph.AddDependency(task.id, dependencies[j]);
      }
      assert dependencies[..|dependencies|] == dependencies;
    }

    /** A new task without edges, filed under a new id. */
    method FileTask(id: TaskId, maxRetries: nat, priority: TaskPriority, limits: Limits) returns (task: Task)
      requires graph.Linked() && id !in graph.tasks
      modifies graph
      ensures fresh(task) && task.id == id && graph.tasks == old(graph.tasks)[id := task]
      ensures task.priority == priority && task.limits == limits
      ensures graph.Linked() && graph.View() == AddTask(old(graph.View()), id, maxRetries)
    {
      task := new Task(id, maxRetries, priority, limits);
      graph.AddTask(task);
    }

    method FileTaskWithEdges(id: TaskId, dependencies: seq<TaskId>, maxRetries: nat, priority: TaskPriority,
                             limits: Limits) returns (task: Task)
      requires graph.Linked() && id !in graph.tasks
      modifies graph, graph.tasks.Values
      ensures fresh(task) && task.id == id && graph.tasks == old(graph.tasks)[id := task]
      ensures task.priority == priority && task.limits == limits
      ensures graph.Linked()
      ensures graph.View() == GraphModel.AddDependencies(AddTask(old(graph.View()), id, maxRetries), id, dependencies)
    {
      task := FileTask(id, maxRetries, priority, limits);
      AddDependencies(task, dependencies);
    }

    /** The first part of `submit_internal`: a new id, a new task and its graph edges. */
    method Record(dependencies: seq<TaskId>, maxRetries: nat, priority: TaskPriority, limits: Limits)
        returns (task: Task)
      requires graph.Linked() && nextTaskId !in graph.tasks
      modifies this, monitor, graph, graph.tasks.Values
      ensures graph.Linked()
      ensures fresh(task) && task.id == old(nextTaskId) && graph.tasks == old(graph.tasks)[task.id := task]
      ensures task.priority == priority && task.limits == limits
      ensures View() == Recorded(old(View()), dependencies, maxRetries)
    {
      hide Known, GraphModel.AddDependencies, AddTask, LateEntries, DependencyGraph.View, DependencyGraph.Linked;
      ghost var known := Known(AddTask(graph.View(), nextTaskId, maxRetries), dependencies);
      late := late[nextTaskId := LateEntries(known, terminal)];
      var id := nextTaskId;
      nextTaskId := nextTaskId + 1;
      monitor.RecordSubmission();
      task := FileTaskWithEdges(id, dependencies, maxRetries, priority, limits);
    }

    /** `try_mark_enqueued`, and `submit` to the pool if the mark was not set. */
    method TryEnqueue(task: Task)
      requires graph.Linked() && task.id in graph.tasks && graph.tasks[task.id] == task
      requires !task.enqueued
      modifies this`queued, task`enqueued
      ensures graph.Linked()
      ensures View() == Enqueue(old(View()), task.id)
    {
      var marked := task.TryMarkEnqueued();
      if marked {
        queued := queued + multiset{task.id};
      }
      FlagsView(task.id);
    }

    /** `submit_internal`. */
    method SubmitInternal(dependencies: seq<TaskId>, maxRetries: nat, priority: TaskPriority,
                          limits: Limits) returns (id: TaskId)
      requires Valid()
      modifies this, monitor, graph, graph.tasks.Values
      ensures id == old(nextTaskId) && id in graph.tasks
      ensures graph.tasks[id].priority == priority && graph.tasks[id].limits == limits
      ensures View() == Apply(old(View()), Submit(dependencies, maxRetries))
      ensures Valid()
    {
      hide Recorded, Inv;
      ghost var before := View();
      FreshId(before);
      StepKeeps(before, Submit(dependencies, maxRetries));
      var task := Record(dependencies, maxRetries, priority, limits);
      id := task.id;
      assert graph.View()[id] == task.View();
      var ready := task.IsReady();
      if ready {
        TryEnqueue(task);
      }
    }

    /** One task of the ready list: marked and handed to the pool. */
    method Tick(task: Task)
      requires graph.Linked() && task.id in graph.tasks && graph.tasks[task.id] == task
      requires task.View().IsReady()
      modifies this`queued, task`enqueued
      ensures graph.Linked()
      ensures Enabled(old(View()), Step.Tick(task.id)) && View() == Apply(old(View()), Step.Tick(task.id))
    {
      assert graph.View()[task.id] == task.View();
      TryEnqueue(task);
    }

    method TickAll(ready: seq<Task>)
      requires graph.Linked() && NoDuplicates(ready) && graph.Filed(ready)
      requires forall k :: 0 <= k < |ready| ==> ready[k].View().IsReady()
      modifies this`queued, graph.tasks.Values`enqueued
      ensures graph.Linked()
      ensures Ticks(old(View()), Ids(ready), View())
    {
      hide Apply, Enabled, Ticks, DependencyGraph.View, DependencyGraph.Linked;
      ghost var before := View();
      ghost var ids := Ids(ready);
      TicksNone(before);
      for j := 0 to |ready|
        invariant graph.Linked()
        invariant Ticks(before, ids[..j], View())
        invariant forall k :: j <= k < |ready| ==> ready[k].View().IsReady()
      {
        assert ready[j] in ready;
        ghost var s := View();
        Tick(ready[j]);
        TicksSnoc(before, ids[..j], s, ids[j]);
        assert ids[..j + 1] == ids[..j] + [ids[j]];
      }
      assert ids[..|ready|] == ids;
    }

    /** The ids of the tasks found ready. */
    lemma ReadyIds(ready: seq<Task>)
      requires graph.Linked() && graph.Filed(ready)
      requires forall id :: id in graph.tasks ==> (graph.tasks[id] in ready <==> graph.View()[id].IsReady())
      ensures forall t :: t in graph.tasks ==> (t in Ids(ready) <==> graph.View()[t].IsReady())
      ensures forall k :: 0 <= k < |ready| ==> ready[k].View().IsReady()
    {
      forall t | t in graph.tasks
        ensures t in Ids(ready) <==> graph.tasks[t] in ready
      {
        IdsCount(ready, graph.tasks[t]);
      }
      forall k | 0 <= k < |ready|
        ensures ready[k].View().IsReady()
      {
        assert ready[k] in ready;
      }
    }

    method FindReady() returns (ready: seq<Task>)
      requires graph.Linked()
      ensures graph.View().Keys == graph.tasks.Keys
      ensures NoDuplicates(ready) && graph.Filed(ready)
      ensures forall t :: t in graph.tasks ==> (t in Ids(ready) <==> graph.View()[t].IsReady())
      ensures forall k :: 0 <= k < |ready| ==> ready[k].View().IsReady()
    {
      ready := graph.GetReadyTasks();
      ReadyIds(ready);
    }

    /** The body of `scheduler_loop`: every task found ready is marked and handed to the pool. */
    method SchedulerPass() returns (ghost ids: seq<TaskId>)
      requires Valid()
      modifies this`queued, graph.tasks.Values`enqueued
      ensures Valid()
      ensures Ticks(old(View()), ids, View())
      ensures old(View()).graph.Keys == graph.tasks.Keys
      ensures forall t :: t in graph.tasks ==> (t in ids <==> old(View()).graph[t].IsReady())
    {
      hide Inv, Apply, Enabled, Ticks, DependencyGraph.View, DependencyGraph.Linked;
      ghost var before := View();
      var ready := FindReady();
      ids := Ids(ready);
      assert forall t :: t in graph.tasks ==> (t in ids <==> before.graph[t].IsReady());
      TickAll(ready);
      TicksKeep(before, ids, View());
    }

    /** `execute` up to the task function, and the rest of it. */
    method Begin(id: TaskId, now: int)
      requires graph.Linked() && id in graph.tasks
      modifies {graph.tasks[id]}`status, {graph.tasks[id]}`attempts, {graph.tasks[id]}`startTime
      ensures graph.Linked() && id in old(graph.View())
      ensures graph.View() == old(graph.View())[id := old(graph.View())[id].Begun()]
      ensures !graph.tasks[id].cancelled ==> graph.tasks[id].startTime == Some(now)
    {
      var started := graph.tasks[id].BeginExecute(now);
      FlagsView(id);
    }

    method End(id: TaskId, attempt: Attempt) returns (ending: Ending)
      requires graph.Linked() && id in graph.tasks && graph.tasks[id].startTime == Some(attempt.started)
      modifies {graph.tasks[id]}`status, {graph.tasks[id]}`endTime
      ensures graph.Linked() && id in old(graph.View())
      ensures ending == EndingOf(graph.tasks[id].limits, attempt)
      ensures graph.View() == old(graph.View())[id := old(graph.View())[id].Ended(ending.Fulfilled?)]
      ensures ending.Fulfilled? ==> graph.tasks[id].endTime == Some(attempt.finished)
    {
      ending := graph.tasks[id].EndExecute(attempt);
      FlagsView(id);
    }

    /** A worker has taken the task: `on_start`, then `execute` up to the task function. */
    method StartTask(id: TaskId, now: int)
      requires Valid() && id in graph.tasks && id in View().graph && id in queued
      modifies this`queued, this`running, monitor, graph.tasks[id]
      ensures Valid()
      ensures View() == Apply(old(View()), Start(id))
      ensures graph.tasks[id].startTime == Some(now)
    {
      hide Inv, DependencyGraph.View, DependencyGraph.Linked;
      NotCancelled(id);
      StepKeeps(View(), Start(id));
      queued := queued - multiset{id};
      running := running + multiset{id};
      monitor.RecordStart();
      Begin(id, now);
    }

    /** Nothing cancels a task here. */
    lemma NotCancelled(id: TaskId)
      requires Valid() && id in graph.tasks
      ensures !graph.tasks[id].cancelled
    {
      InvAt(View(), id);
      assert View().graph[id] == graph.tasks[id].View();
    }

    /** `execute` returns or throws. */
    method ReturnTask(id: TaskId, attempt: Attempt) returns (ending: Ending)
      requires Valid() && id in graph.tasks && id in View().graph && id in running
      requires graph.tasks[id].startTime == Some(attempt.started)
      modifies this`running, this`settling, graph.tasks[id]
      ensures Valid()
      ensures ending == EndingOf(graph.tasks[id].limits, attempt)
      ensures View() == Apply(old(View()), Return(id, ending.Fulfilled?))
      ensures ending.Fulfilled? ==>
                graph.tasks[id].startTime == Some(attempt.started) && graph.tasks[id].endTime == Some(attempt.finished)
    {
      hide Inv, DependencyGraph.View, DependencyGraph.Linked;
      StepKeeps(View(), Return(id, true));
      StepKeeps(View(), Return(id, false));
      running := running - multiset{id};
      settling := settling + multiset{id};
      ending := End(id, attempt);
    }

    /** `clear_enqueued_flag`. */
    method ClearMark(id: TaskId)
      requires graph.Linked() && id in graph.tasks
      modifies {graph.tasks[id]}`enqueued
      ensures graph.Linked()
      ensures graph.View() == old(graph.View())[id := old(graph.View())[id].(enqueued := false)]
    {
      graph.tasks[id].ClearEnqueuedFlag();
      FlagsView(id);
    }

    /** `notify_task_completed` and `clear_enqueued_flag`. */
    method FinishTask(id: TaskId)
      requires graph.Linked() && id in graph.tasks
      modifies this`terminal, graph.tasks.Values
      ensures graph.Linked()
      ensures View() == Finish(old(View()), id)
    {
      hide NotifyCompleted, DependencyGraph.Linked, Task.View;
      graph.NotifyTaskCompleted(id);
      ClearMark(id);
      terminal := terminal + [id];
    }

    /** The hook that runs after `execute`: `on_success`, or `on_failure` with `handle_failure`. */
    method SettleTask(id: TaskId)
      requires Valid() && id in graph.tasks && id in View().graph && id in settling
      modifies this, monitor, graph.tasks.Values
      ensures Valid()
      ensures View() == Apply(old(View()), Settle(id))
      ensures if old(graph.tasks[id].status) == Completed then monitor.TimeCounted(old(graph.tasks[id].ExecutionTime()))
              else monitor.TimesKept()
    {
      hide Inv, Finish;
      StepKeeps(View(), Settle(id));
      if graph.tasks[id].status == Completed {
        OnSuccess(id);
      } else {
        OnFailure(id);
      }
    }

    lemma InView(id: TaskId)
      requires id in graph.tasks
      ensures id in View().graph
    {
    }

    method OnSuccess(id: TaskId)
      requires graph.Linked() && id in graph.tasks
      modifies this, monitor, graph.tasks.Values
      ensures graph.Linked()
      ensures View() == ApplySuccess(old(View()), id)
      ensures monitor.TimeCounted(old(graph.tasks[id].ExecutionTime()))
    {
      hide Finish, DependencyGraph.View, DependencyGraph.Linked;
      InView(id);
      settling := settling - multiset{id};
      monitor.RecordCompletion(graph.tasks[id].ExecutionTime());
      FinishTask(id);
    }

    method OnFailure(id: TaskId)
      requires graph.Linked() && id in graph.tasks
      modifies this, monitor, graph.tasks.Values
      ensures graph.Linked()
      ensures View() == ApplyFailure(old(View()), id)
      ensures monitor.TimesKept()
    {
      hide Finish, DependencyGraph.View, DependencyGraph.Linked;
      InView(id);
      settling := settling - multiset{id};
      monitor.RecordFailure();
      HandleFailure(id);
    }

    /** The retry of `handle_failure`. */
    method TryAgain(id: TaskId)
      requires graph.Linked() && id in graph.tasks
      modifies this`queued, monitor`metrics, graph.tasks[id]
      ensures graph.Linked() && id in old(View()).graph
      ensures var s := old(View());
              View() == Enqueue(s.(metrics := s.metrics.Retry(),
                                   graph := s.graph[id := s.graph[id].ResetForRetry()]), id)
    {
      InView(id);
      var task := graph.tasks[id];
      monitor.RecordRetry();
      task.ResetForRetry();
      FlagsView(id);
      TryEnqueue(task);
    }

    /** `handle_failure`: try again if the budget allows, otherwise finish. */
    method HandleFailure(id: TaskId)
      requires graph.Linked() && id in graph.tasks
      modifies this, monitor, graph.tasks.Values
      ensures graph.Linked()
      ensures var s := old(View());
              View() == if s.graph[id].CanRetry() then
                          Enqueue(s.(metrics := s.metrics.Retry(),
                              graph := s.graph[id := s.graph[id].ResetForRetry()]), id)
                        else Finish(s, id)
      ensures monitor.TimesKept()
    {
      hide Finish, Enqueue, DependencyGraph.Linked, TaskView.ResetForRetry;
      InView(id);
      var retry := graph.tasks[id].CanRetry();
      assert View().graph[id] == graph.tasks[id].View();
      if retry {
        TryAgain(id);
      } else {
        FinishTask(id);
      }
    }
  }

  lemma FreshId(s: State)
    requires Inv(s)
    ensures s.nextId !in s.graph
  {
  }
}
