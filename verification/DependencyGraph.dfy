/** include/task_engine/dependency_graph.hpp: the graph object over Task objects. */
module DependencyGraphs {
  import opened Sequences
  import opened Tasks
  import opened GraphModel
  import opened Cycles

  // ---- topological_order

  /** The adjacency lists record each dependency entry once, from the other end. */
  ghost predicate MirroredBy(g: Deps, adjacency: map<TaskId, seq<TaskId>>) {
    && adjacency.Keys == g.Keys
    && (forall d, t :: d in adjacency && t in adjacency[d] ==> t in g)
    && (forall d, t :: d in g && t in g ==> multiset(adjacency[d])[t] == multiset(g[t])[d])
  }

  /** What the loop of `topological_order` knows between two tasks. */
  ghost predicate Sorting(g: Deps, order: seq<TaskId>, ready: seq<TaskId>, indegree: map<TaskId, nat>) {
    && indegree.Keys == g.Keys
    && NoDuplicates(order + ready)
    && DependenciesFirst(g, order)
    && (forall t :: t in ready ==> t in g)
    && (forall t :: t in g ==> indegree[t] == Open(g[t], Elements(order)))
    && (forall t :: t in g ==> (indegree[t] == 0 <==> t in order + ready))
  }

  /** What placing the first ready task changes before its dependents are released. */
  lemma PlaceFirst(g: Deps, order: seq<TaskId>, id: TaskId, queue: seq<TaskId>, degrees: map<TaskId, nat>)
    requires Sorting(g, order, [id] + queue, degrees)
    ensures id in g
    ensures NoDuplicates((order + [id]) + queue)
    ensures DependenciesFirst(g, order + [id])
    ensures forall t :: t in g ==> degrees[t] == Open(g[t], Elements(order + [id])) + multiset(g[t])[id]
    ensures forall t :: t in g ==> (degrees[t] == 0 <==> t in (order + [id]) + queue)
  {
    var all := order + ([id] + queue);
    assert all == (order + [id]) + queue;
    assert id in [id] + queue;
    assert all[|order|] == id;
    assert forall k :: 0 <= k < |order| ==> order[k] == all[k] != all[|order|];
    forall t | t in g
      ensures degrees[t] == Open(g[t], Elements(order + [id])) + multiset(g[t])[id]
    {
      OpenAfter(g[t], Elements(order), id);
      assert Elements(order + [id]) == Elements(order) + {id};
    }
    assert degrees[id] == 0;
    OpenZero(g[id], Elements(order));
    forall i | 0 <= i < |order + [id]|
      ensures PlacedAfter(g, order + [id], i)
    {
      assert i < |order| ==> PlacedAfter(g, order, i);
      assert (order + [id])[..i] == if i < |order| then order[..i] else order;
    }
  }

  /** The inner loop: one decrement for each adjacency entry of the task just placed. */
  method ReleaseDependents(ghost all: set<TaskId>, ghost placed: seq<TaskId>, dependents: seq<TaskId>,
                           degrees: map<TaskId, nat>, queue: seq<TaskId>)
    returns (indegree: map<TaskId, nat>, ready: seq<TaskId>)
    requires degrees.Keys == all
    requires forall t :: t in dependents ==> t in all
    requires forall t :: t in all ==> multiset(dependents)[t] <= degrees[t]
    requires NoDuplicates(placed + queue)
    requires forall t :: t in queue ==> t in all
    requires forall t :: t in all ==> (degrees[t] == 0 <==> t in placed + queue)
    ensures indegree.Keys == all
    ensures forall t :: t in all ==> indegree[t] + multiset(dependents)[t] == degrees[t]
    ensures NoDuplicates(placed + ready)
    ensures forall t :: t in ready ==> t in all
    ensures forall t :: t in all ==> (indegree[t] == 0 <==> t in placed + ready)
  {
    indegree, ready := degrees, queue;
    for j := 0 to |dependents|
      invariant indegree.Keys == all
      invariant forall t :: t in all ==> indegree[t] + multiset(dependents[..j])[t] == degrees[t]
      invariant NoDuplicates(placed + ready)
      invariant forall t :: t in ready ==> t in all
      invariant forall t :: t in all ==> (indegree[t] == 0 <==> t in placed + ready)
    {
      var dependent := dependents[j];
      OneMore(dependents, j);
      assert indegree[dependent] > 0;
      indegree := indegree[dependent := indegree[dependent] - 1];
      if indegree[dependent] == 0 {
        assert placed + (ready + [dependent]) == (placed + ready) + [dependent];
        ready := ready + [dependent];
      }
    }
    assert dependents[..|dependents|] == dependents;
  }

  lemma PlacedAndReleased(g: Deps, placed: seq<TaskId>, id: TaskId, dependents: seq<TaskId>,
                          degrees: map<TaskId, nat>, indegree: map<TaskId, nat>, ready: seq<TaskId>)
    requires degrees.Keys == indegree.Keys == g.Keys
    requires DependenciesFirst(g, placed)
    requires forall t :: t in g ==> degrees[t] == Open(g[t], Elements(placed)) + multiset(g[t])[id]
    requires forall t :: t in g ==> multiset(dependents)[t] == multiset(g[t])[id]
    requires forall t :: t in g ==> indegree[t] + multiset(dependents)[t] == degrees[t]
    requires NoDuplicates(placed + ready)
    requires forall t :: t in ready ==> t in g
    requires forall t :: t in g ==> (indegree[t] == 0 <==> t in placed + ready)
    ensures Sorting(g, placed, ready, indegree)
  {
  }

  /** The tasks without dependency entries, in the order the map of degrees happens to be walked. */
  method InitiallyReady(indegree: map<TaskId, nat>) returns (ready: seq<TaskId>)
    ensures NoDuplicates(ready)
    ensures forall t :: t in ready <==> t in indegree && indegree[t] == 0
  {
    ready := [];
    var rest := indegree.Keys;
    while rest != {}
      invariant rest <= indegree.Keys
      invariant NoDuplicates(ready)
      invariant forall t :: t in ready <==> t in indegree && t !in rest && indegree[t] == 0
    {
      var id :| id in rest;
      rest := rest - {id};
      if indegree[id] == 0 {
        ready := ready + [id];
      }
    }
  }

  lemma SortingStarts(g: Deps, ready: seq<TaskId>, indegree: map<TaskId, nat>)
    requires indegree.Keys == g.Keys && forall t :: t in g ==> indegree[t] == |g[t]|
    requires NoDuplicates(ready)
    requires forall t :: t in ready <==> t in indegree && indegree[t] == 0
    ensures Sorting(g, [], ready, indegree)
  {
    assert [] + ready == ready;
    assert Elements<TaskId>([]) == {};
    forall t | t in g
      ensures indegree[t] == Open(g[t], Elements([]))
    {
      OpenNone(g[t]);
    }
  }

  lemma SortingEnds(g: Deps, order: seq<TaskId>, indegree: map<TaskId, nat>)
    requires Closed(g)
    requires Sorting(g, order, [], indegree)
    ensures NoDuplicates(order)
    ensures DependenciesFirst(g, order)
    ensures forall t :: t in g ==> (t !in order <==> BelowCycle(g, t))
    ensures |order| != |g| <==> Cyclic(g)
  {
    assert order + [] == order;
    assert OmittedWait(g, order) by {
      forall t | t in g && t !in order
        ensures Waits(g, order, t)
      {
        OpenZero(g[t], Elements(order));
        assert indegree[t] != 0;
      }
    }
    OrderExact(g, order);
  }

  lemma OrderFits(g: Deps, order: seq<TaskId>, ready: seq<TaskId>)
    requires NoDuplicates(order + ready) && ready != []
    requires DependenciesFirst(g, order) && forall t :: t in ready ==> t in g
    ensures |order| < |g|
  {
    var all := order + ready;
    PlacedInside(g, order);
    NoDuplicatesBound(all, g.Keys);
    assert |g.Keys| == |g|;
  }

  /** One round of the loop: pop the first ready task, place it and release its dependents. */
  method PlaceNext(ghost g: Deps, order: seq<TaskId>, ready: seq<TaskId>, degrees: map<TaskId, nat>,
                   adjacency: map<TaskId, seq<TaskId>>)
    returns (order': seq<TaskId>, ready': seq<TaskId>, indegree: map<TaskId, nat>)
    requires MirroredBy(g, adjacency)
    requires Sorting(g, order, ready, degrees) && ready != []
    ensures order' == order + [ready[0]]
    ensures Sorting(g, order', ready', indegree)
  {
    var id, queue := ready[0], ready[1..];
    assert ready == [id] + queue;
    PlaceFirst(g, order, id, queue, degrees);
    order' := order + [id];
    indegree, ready' := ReleaseDependents(g.Keys, order', adjacency[id], degrees, queue);
    PlacedAndReleased(g, order', id, adjacency[id], degrees, indegree, ready');
  }

  /** The loop of `topological_order`. */
  method SortFrom(ghost g: Deps, degrees: map<TaskId, nat>, adjacency: map<TaskId, seq<TaskId>>)
      returns (order: seq<TaskId>)
    requires Closed(g)
    requires MirroredBy(g, adjacency)
    requires degrees.Keys == g.Keys && forall t :: t in g ==> degrees[t] == |g[t]|
    ensures NoDuplicates(order)
    ensures DependenciesFirst(g, order)
    ensures forall t :: t in g ==> (t !in order <==> BelowCycle(g, t))
    ensures |order| != |g| <==> Cyclic(g)
  {
    var indegree := degrees;
    var ready := InitiallyReady(indegree);
    order := [];
    SortingStarts(g, ready, indegree);
    while ready != []
      invariant Sorting(g, order, ready, indegree)
      decreases |g| - |order|
    {
      OrderFits(g, order, ready);
      order, ready, indegree := PlaceNext(g, order, ready, indegree, adjacency);
    }
    SortingEnds(g, order, indegree);
  }

  // ---- the graph object

  lemma MirrorOf(g: Graph, adjacency: map<TaskId, seq<TaskId>>)
    requires WellFormed(g)
    requires adjacency.Keys == g.Keys && forall t :: t in g ==> adjacency[t] == g[t].dependents
    ensures Closed(DepsOf(g)) && MirroredBy(DepsOf(g), adjacency)
  {
    forall t | t in g
      ensures forall u :: u in g[t].dependencies || u in g[t].dependents ==> u in g
    {
      assert NeighboursLive(g, t);
    }
    forall d, t | d in g && t in g
      ensures multiset(adjacency[d])[t] == multiset(DepsOf(g)[t])[d]
    {
      assert EdgeMirrored(g, t, d);
    }
  }

  /** Pointers and ids agree on live tasks. */
  lemma {:induction false} IdsWithout(s: seq<Task>, task: Task)
    requires forall u :: u in s && u.id == task.id ==> u == task
    ensures Ids(Without(s, task)) == Without(Ids(s), task.id)
  {
    if s != [] {
      IdsWithout(s[1..], task);
      assert Ids(s)[1..] == Ids(s[1..]);
      var head := if s[0] == task then [] else [s[0]];
      assert Ids(head + Without(s[1..], task)) == Ids(head) + Ids(Without(s[1..], task));
    }
  }

  lemma IdsFirst(s: seq<Task>)
    requires s != []
    ensures multiset(Ids(s)) == multiset{s[0].id} + multiset(Ids(s[1..]))
  {
    assert Ids(s) == [s[0].id] + Ids(s[1..]);
  }

  /** Where an id names one task only, counting ids is counting pointers. */
  lemma {:induction false} IdsCount(s: seq<Task>, task: Task)
    requires forall u :: u in s && u.id == task.id ==> u == task
    ensures multiset(Ids(s))[task.id] == multiset(s)[task]
    ensures task.id in Ids(s) <==> task in s
  {
    hide Ids;
    if s == [] {
      assert Ids(s) == [];
    } else {
      var rest: seq<Task> := s[1..];
      IdsCount(rest, task);
      IdsFirst(s);
      assert s == [s[0]] + rest;
      assert multiset(s) == multiset{s[0]} + multiset(rest);
      assert s[0].id == task.id <==> s[0] == task;
    }
    assert task.id in Ids(s) <==> task.id in multiset(Ids(s));
  }

  lemma NotNotified(v: TaskView)
    ensures v.Notified(0) == v
  {
  }

  lemma NotifiedOnceMore(v: TaskView, ids: seq<TaskId>, j: nat)
    requires j < |ids|
    ensures v.Notified(multiset(ids[..j])[ids[j]]).Notified(1) == v.Notified(multiset(ids[..j + 1])[ids[j]])
    ensures forall t :: multiset(ids[..j + 1])[t] == multiset(ids[..j])[t] + if t == ids[j] then 1 else 0
  {
    OneMore(ids, j);
    NotifiedTwice(v, multiset(ids[..j])[ids[j]], 1);
  }

  lemma PrefixGrows(s: seq<Task>, j: nat)
    requires j < |s|
    ensures multiset(s[..j + 1]) == multiset(s[..j]) + multiset{s[j]}
    ensures forall u :: u in s[..j + 1] <==> u in s[..j] || u == s[j]
  {
    assert s[..j + 1] == s[..j] + [s[j]];
  }

  /** s leads to filed tasks other than the given one. */
  ghost predicate FiledIn(tasks: map<TaskId, Task>, s: seq<Task>, task: Task) {
    forall u :: u in s ==> u.id in tasks && tasks[u.id] == u && u.id != task.id
  }

  ghost predicate Names(s: seq<Task>, task: Task) {
    forall u :: u in s && u.id == task.id ==> u == task
  }

  /** The mirror, read through pointers: what the two loops skip needs no change. */
  lemma MirrorAt(g: Graph, task: Task, t: Task, ups: seq<Task>, downs: seq<Task>, tUps: seq<Task>, tDowns: seq<Task>)
    requires WellFormed(g) && task.id in g && t.id in g
    requires g[task.id].dependencies == Ids(ups) && g[task.id].dependents == Ids(downs)
    requires g[t.id].dependencies == Ids(tUps) && g[t.id].dependents == Ids(tDowns)
    requires Names(ups, t) && Names(downs, t) && Names(tUps, task) && Names(tDowns, task)
    ensures t !in ups ==> Without(tDowns, task) == tDowns
    ensures t !in downs ==> Without(tUps, task) == tUps
    ensures multiset(downs)[t] == Edges(g, t.id, task.id)
  {
    IdsCount(ups, t);
    IdsCount(downs, t);
    IdsCount(tUps, task);
    IdsCount(tDowns, task);
    assert EdgeMirrored(g, t.id, task.id);
    assert EdgeMirrored(g, task.id, t.id);
    if t !in ups {
      WithoutAbsent(tDowns, task);
    }
    if t !in downs {
      WithoutAbsent(tUps, task);
    }
  }

  lemma WithoutTwice(s: seq<Task>, task: Task)
    ensures Without(Without(s, task), task) == Without(s, task)
    ensures task !in Without(s, task)
    ensures forall u :: u in Without(s, task) ==> u in s
  {
    WithoutContents(s, task);
    WithoutAbsent(Without(s, task), task);
  }

  class DependencyGraph {
    var tasks: map<TaskId, Task>

    /** Tasks are filed under their own id and all edge pointers lead to filed tasks. */
    ghost predicate Linked()
      reads this, tasks.Values`dependencies, tasks.Values`dependents
    {
      forall id :: id in tasks ==> tasks[id].id == id && Filed(tasks[id].dependencies) && Filed(tasks[id].dependents)
    }

    ghost predicate Filed(s: seq<Task>)
      reads this
    {
      forall u :: u in s ==> u.id in tasks && tasks[u.id] == u
    }

    lemma FiledSnoc(s: seq<Task>, task: Task)
      requires Filed(s) && task.id in tasks && tasks[task.id] == task
      ensures Filed(s + [task])
    {
    }

    ghost predicate FiledWithout(s: seq<Task>, task: Task)
      reads this
    {
      Filed(s) && task !in s
    }

    ghost function View(): Graph
      reads this, tasks.Values
    {
      map id | id in tasks :: tasks[id].View()
    }

    constructor ()
      ensures tasks == map[] && Linked() && View() == map[]
    {
      tasks := map[];
    }

    method AddTask(task: Task)
      modifies this
      ensures tasks == old(tasks)[task.id := task]
      ensures old(Linked()) && task.id !in old(tasks) && task.dependencies == [] && task.dependents == [] ==>
                Linked() && View() == old(View())[task.id := task.View()]
    {
      tasks := tasks[task.id := task];
    }

    method AddDependency(taskId: TaskId, dependencyId: TaskId)
      requires Linked()
      modifies tasks.Values
      ensures Linked()
      ensures View() == GraphModel.AddDependency(old(View()), taskId, dependencyId)
    {
      if taskId in tasks && dependencyId in tasks {
        var task, dependency := tasks[taskId], tasks[dependencyId];
        ghost var before := View();
        task.AddDependency(dependency);
        assert Linked() by {
          hide Filed;
          forall id | id in tasks
            ensures Filed(tasks[id].dependencies) && Filed(tasks[id].dependents)
          {
            FiledSnoc(old(tasks[id].dependencies), dependency);
            FiledSnoc(old(tasks[id].dependents), task);
          }
        }
        forall id | id in tasks
          ensures tasks[id].View() == GraphModel.AddDependency(before, taskId, dependencyId)[id]
        {
        }
        ViewIs(GraphModel.AddDependency(before, taskId, dependencyId));
      }
    }

    /** All ready tasks, in the order the map happens to be walked. */
    method GetReadyTasks() returns (ready: seq<Task>)
      requires Linked()
      ensures NoDuplicates(ready) && Filed(ready)
      ensures forall id :: id in tasks ==> (tasks[id] in ready <==> View()[id].IsReady())
    {
      ready := [];
      var rest := tasks.Keys;
      while rest != {}
        invariant rest <= tasks.Keys
        invariant NoDuplicates(ready) && Filed(ready)
        invariant forall id :: id in tasks ==> (tasks[id] in ready <==> id !in rest && View()[id].IsReady())
      {
        var id :| id in rest;
        rest := rest - {id};
        var r := tasks[id].IsReady();
        if r {
          ready := ready + [tasks[id]];
        }
      }
    }

    /** The notification loop: each dependent is notified once for each of its entries. */
    static method NotifyAll(dependents: seq<Task>, ghost live: set<Task>)
      requires forall u :: u in dependents ==> u in live
      requires forall u, v :: u in live && v in live && u.id == v.id ==> u == v
      modifies live`status, live`dependenciesCount
      ensures forall t :: t in live ==> t.View() == old(t.View()).Notified(multiset(Ids(dependents))[t.id])
      ensures forall t :: t in live ==> CountedDown(t, multiset(Ids(dependents))[t.id])
    {
      hide Task.View, TaskView.Notified;
      ghost var ids := Ids(dependents);
      forall t | t in live
        ensures t.View() == t.View().Notified(0)
      {
        NotNotified(t.View());
      }
      for j := 0 to |dependents|
        invariant forall t :: t in live ==> t.View() == old(t.View()).Notified(multiset(ids[..j])[t.id])
        invariant forall t :: t in live ==> CountedDown(t, multiset(ids[..j])[t.id])
      {
        var dependent := dependents[j];
        NotifiedOnceMore(old(dependent.View()), ids, j);
        dependent.NotifyDependencyCompleted();
      }
      assert ids[..|dependents|] == ids;
    }

    /** The counter has gone down by k, and if it has come to zero on the way the task is Ready. */
    static twostate predicate CountedDown(t: Task, k: nat)
      reads t
    {
      && t.dependenciesCount == old(t.dependenciesCount) - k
      && t.status == if t.dependenciesCount <= 0 < old(t.dependenciesCount) then Ready else old(t.status)
    }

    method NotifyTaskCompleted(taskId: TaskId)
      requires Linked()
      modifies tasks.Values`status, tasks.Values`dependenciesCount
      ensures Linked()
      ensures View() == NotifyCompleted(old(View()), taskId)
      ensures taskId in tasks ==>
                forall t :: t in tasks.Values ==> CountedDown(t, multiset(Ids(tasks[taskId].dependents))[t.id])
    {
      hide Task.View, TaskView.Notified, Ids, Linked, Filed, NotifyCompleted, View;
      NotifyMeans(taskId);
      if taskId in tasks {
        ghost var h := NotifyCompleted(View(), taskId);
        NotifyAll(tasks[taskId].dependents, tasks.Values);
        LinkedStill();
        ViewIs(h);
      }
    }

    /** What the completion of one task means for each filed task. */
    lemma NotifyMeans(taskId: TaskId)
      requires Linked()
      ensures View().Keys == NotifyCompleted(View(), taskId).Keys == tasks.Keys
      ensures taskId !in tasks ==> NotifyCompleted(View(), taskId) == View()
      ensures forall t :: t in tasks ==> tasks[t] in tasks.Values && tasks[t].id == t
      ensures forall u, v :: u in tasks.Values && v in tasks.Values && u.id == v.id ==> u == v
      ensures taskId in tasks ==> forall u :: u in tasks[taskId].dependents ==> u in tasks.Values
      ensures taskId in tasks ==> forall t :: t in tasks ==>
                NotifyCompleted(View(), taskId)[t]
                    == tasks[t].View().Notified(multiset(Ids(tasks[taskId].dependents))[t])
    {
    }

    /** Changes to status and counters leave every pointer where it was. */
    twostate lemma LinkedStill()
      requires old(Linked()) && tasks == old(tasks)
      requires forall id :: id in tasks ==> tasks[id].dependencies == old(tasks[id].dependencies)
      requires forall id :: id in tasks ==> tasks[id].dependents == old(tasks[id].dependents)
      ensures Linked()
    {
      forall id | id in tasks
        ensures Filed(tasks[id].dependencies) && Filed(tasks[id].dependents)
      {
        assert old(Filed(tasks[id].dependencies) && Filed(tasks[id].dependents));
      }
    }

    method AllCompleted() returns (r: bool)
      requires Linked()
      ensures r <==> forall id :: id in tasks ==> View()[id].status.Terminal()
      ensures r <==> forall task :: task in tasks.Values ==>
                       task.status == Completed || task.status == Failed || task.status == Cancelled
    {
      var rest := tasks.Keys;
      while rest != {}
        invariant rest <= tasks.Keys
        invariant forall id :: id in tasks && id !in rest ==> View()[id].status.Terminal()
      {
        var id :| id in rest;
        rest := rest - {id};
        var status := tasks[id].status;
        if status != Completed && status != Failed && status != Cancelled {
          assert !View()[id].status.Terminal();
          return false;
        }
      }
      return true;
    }

    /** The first loop of `remove_task`: forget the task at each of its dependencies. */
    static method DetachFromDependencies(task: Task, ghost live: set<Task>)
      requires forall u :: u in task.dependencies ==> u in live
      modifies live`dependents
      ensures forall t :: t in live ==>
                t.dependents == if t in task.dependencies then Without(old(t.dependents), task) else old(t.dependents)
    {
      hide Without;
      var dependencies := task.dependencies;
      for j := 0 to |dependencies|
        invariant forall t :: t in live ==>
                    t.dependents == if t in dependencies[..j] then Without(old(t.dependents), task)
                        else old(t.dependents)
      {
        var dependency := dependencies[j];
        PrefixGrows(dependencies, j);
        WithoutTwice(old(dependency.dependents), task);
        dependency.dependents := Without(dependency.dependents, task);
      }
      assert dependencies[..|dependencies|] == dependencies;
    }

    /** The second loop: forget the task at each dependent, counting one off for every entry. */
    static method DetachFromDependents(task: Task, ghost live: set<Task>)
      requires forall u :: u in task.dependents ==> u in live
      modifies live`dependencies, live`dependenciesCount
      ensures forall t :: t in live ==>
                t.dependencies == if t in task.dependents then Without(old(t.dependencies), task)
                    else old(t.dependencies)
      ensures forall t :: t in live ==>
                t.dependenciesCount == old(t.dependenciesCount) - multiset(task.dependents)[t]
    {
      hide Without;
      var dependents := task.dependents;
      for j := 0 to |dependents|
        invariant forall t :: t in live ==>
                    t.dependencies == if t in dependents[..j] then Without(old(t.dependencies), task)
                        else old(t.dependencies)
        invariant forall t :: t in live ==>
                    t.dependenciesCount == old(t.dependenciesCount) - multiset(dependents[..j])[t]
      {
        var dependent := dependents[j];
        PrefixGrows(dependents, j);
        WithoutTwice(old(dependent.dependencies), task);
        dependent.dependencies := Without(dependent.dependencies, task);
        dependent.dependenciesCount := dependent.dependenciesCount - 1;
      }
      assert dependents[..|dependents|] == dependents;
    }

    lemma MirrorHere(task: Task, t: Task)
      requires Linked() && WellFormed(View())
      requires Filed([task, t])
      ensures t !in task.dependencies ==> Without(t.dependents, task) == t.dependents
      ensures t !in task.dependents ==> Without(t.dependencies, task) == t.dependencies
      ensures multiset(task.dependents)[t] == Edges(View(), t.id, task.id)
    {
      assert task in [task, t] && t in [task, t];
      var g := View();
      assert g[task.id] == task.View() && g[t.id] == t.View();
      MirrorAt(g, task, t, task.dependencies, task.dependents, t.dependencies, t.dependents);
    }

    /** Both loops together leave every other task as if it never had edges with this one, when
        the tasks they skip have none. */
    static method DetachBoth(task: Task, ghost live: set<Task>)
      requires task in live && forall u :: u in task.dependencies || u in task.dependents ==> u in live
      requires forall t :: t in live && t != task && t !in task.dependencies ==>
               Without(t.dependents, task) == t.dependents
      requires forall t :: t in live && t != task && t !in task.dependents ==>
               Without(t.dependencies, task) == t.dependencies
      modifies live`dependents, live`dependencies, live`dependenciesCount
      ensures forall t :: t in live && t != task ==> t.dependents == Without(old(t.dependents), task)
      ensures forall t :: t in live && t != task ==> t.dependencies == Without(old(t.dependencies), task)
      ensures forall t :: t in live && t != task ==>
                t.dependenciesCount == old(t.dependenciesCount) - multiset(old(task.dependents))[t]
    {
      hide Without;
      ghost var downs: seq<Task> := task.dependents;
      DetachFromDependencies(task, live);
      SelfForgotten(task, downs, task.dependents);
      DetachFromDependents(task, live);
    }

    /** Forgetting itself, a task forgets no other. */
    static lemma SelfForgotten(task: Task, before: seq<Task>, after: seq<Task>)
      requires after == before || after == Without(before, task)
      ensures forall t: Task :: t != task ==> multiset(after)[t] == multiset(before)[t] && (t in after <==> t in before)
      ensures forall t :: t in after ==> t in before
    {
      WithoutContents(before, task);
    }

    method Detach(task: Task)
      requires Linked() && WellFormed(View())
      requires Filed([task])
      modifies tasks.Values`dependents, tasks.Values`dependencies, tasks.Values`dependenciesCount
      ensures forall t: Task :: t in tasks.Values && t != task ==> t.dependents == Without(old(t.dependents), task)
      ensures forall t: Task :: t in tasks.Values && t != task ==> t.dependencies == Without(old(t.dependencies), task)
      ensures forall t: Task :: t in tasks.Values && t != task ==>
                t.dependenciesCount == old(t.dependenciesCount) - Edges(old(View()), t.id, task.id)
    {
      assert task in [task];
      forall t: Task | t in tasks.Values && t != task
        ensures t !in task.dependencies ==> Without(t.dependents, task) == t.dependents
        ensures t !in task.dependents ==> Without(t.dependencies, task) == t.dependencies
        ensures multiset(task.dependents)[t] == Edges(View(), t.id, task.id)
      {
        MirrorHere(task, t);
      }
      DetachBoth(task, tasks.Values);
    }

    lemma WithoutAt(s: seq<Task>, task: Task)
      requires Filed(s) && Filed([task])
      ensures Ids(Without(s, task)) == Without(Ids(s), task.id)
      ensures FiledWithout(Without(s, task), task)
    {
      assert task in [task];
      IdsWithout(s, task);
      WithoutTwice(s, task);
    }

    /** What the detached tasks still point to, and how that reads by id. */
    method DetachIds(task: Task)
      requires Linked() && WellFormed(View())
      requires Filed([task])
      modifies tasks.Values`dependents, tasks.Values`dependencies, tasks.Values`dependenciesCount
      ensures forall t: Task :: t in tasks.Values && t != task ==>
                FiledWithout(t.dependencies, task) && FiledWithout(t.dependents, task)
      ensures forall t: Task :: t in tasks.Values && t != task ==>
                t.View() == Unlinked(old(t.View()), task.id, Edges(old(View()), t.id, task.id))
    {
      assert task in [task];
      forall t: Task | t in tasks.Values && t != task
        ensures Ids(Without(t.dependencies, task)) == Without(Ids(t.dependencies), task.id)
        ensures Ids(Without(t.dependents, task)) == Without(Ids(t.dependents), task.id)
        ensures FiledWithout(Without(t.dependencies, task), task) && FiledWithout(Without(t.dependents, task), task)
      {
        WithoutAt(t.dependencies, task);
        WithoutAt(t.dependents, task);
      }
      Detach(task);
    }

    /** Both loops of `remove_task`, as the rest of the graph sees them. */
    method DetachAll(id: TaskId)
      requires Linked() && WellFormed(View())
      requires id in tasks
      modifies tasks.Values`dependents, tasks.Values`dependencies, tasks.Values`dependenciesCount
      ensures forall t :: t in tasks && t != id ==> tasks[t].View() == GraphModel.RemoveTask(old(View()), id)[t]
      ensures forall t :: t in tasks && t != id ==>
                FiledWithout(tasks[t].dependencies, tasks[id]) && FiledWithout(tasks[t].dependents, tasks[id])
    {
      hide Task.View, Linked, WellFormed, Filed, FiledWithout, View, GraphModel.RemoveTask, Unlinked, Edges;
      RemoveMeans(id);
      DetachIds(tasks[id]);
    }

    lemma RemoveMeans(id: TaskId)
      requires Linked() && id in tasks
      ensures Filed([tasks[id]])
      ensures View().Keys == tasks.Keys
      ensures forall t :: t in tasks ==> tasks[t] in tasks.Values && tasks[t].id == t
      ensures forall t :: t in tasks && t != id ==> tasks[t] != tasks[id]
      ensures GraphModel.RemoveTask(View(), id).Keys == tasks.Keys - {id}
      ensures forall t :: t in tasks && t != id ==>
                GraphModel.RemoveTask(View(), id)[t] == Unlinked(tasks[t].View(), id, Edges(View(), t, id))
    {
      hide Task.View, Unlinked, Edges;
    }

    lemma ViewIs(h: Graph)
      requires h.Keys == tasks.Keys
      requires forall t :: t in tasks ==> tasks[t].View() == h[t]
      ensures View() == h
    {
    }

    method RemoveTask(id: TaskId) returns (r: bool)
      requires Linked() && WellFormed(View())
      modifies this, tasks.Values
      ensures Linked() && WellFormed(View())
      ensures r == (id in old(tasks))
      ensures View() == if r then GraphModel.RemoveTask(old(View()), id) else old(View())
    {
      if id !in tasks {
        return false;
      }
      hide Task.View, Linked, WellFormed, Filed, FiledWithout, View, GraphModel.RemoveTask;
      ghost var h := GraphModel.RemoveTask(View(), id);
      RemovedForm(id);
      DetachAll(id);
      Drop(id, h);
      return true;
    }

    /** The erasure from the map, once no other filed task points to the task. */
    method Drop(id: TaskId, ghost h: Graph)
      requires id in tasks
      requires forall t :: t in tasks ==> tasks[t].id == t
      requires forall t :: t in tasks && t != id ==>
               FiledWithout(tasks[t].dependencies, tasks[id]) && FiledWithout(tasks[t].dependents, tasks[id])
      requires h.Keys == tasks.Keys - {id}
      requires forall t :: t in tasks && t != id ==> tasks[t].View() == h[t]
      modifies this
      ensures Linked() && View() == h
    {
      ghost var before, task := tasks, tasks[id];
      assert forall t :: t in tasks && t != id ==>
          FiledIn(before, tasks[t].dependencies, task) && FiledIn(before, tasks[t].dependents, task);
      tasks := tasks - {id};
      LinkedWithout(before, task, h);
    }

    lemma RemovedForm(id: TaskId)
      requires Linked() && WellFormed(View()) && id in tasks
      ensures WellFormed(GraphModel.RemoveTask(View(), id))
      ensures GraphModel.RemoveTask(View(), id).Keys == tasks.Keys - {id}
      ensures forall t :: t in tasks ==> tasks[t].id == t
    {
      RemoveTaskKeeps(View(), id);
    }

    /** Dropping a task that no other filed task points to leaves the rest linked. */
    lemma LinkedWithout(before: map<TaskId, Task>, task: Task, h: Graph)
      requires tasks == before - {task.id}
      requires forall t :: t in tasks ==> tasks[t].id == t
      requires forall t :: t in tasks ==> FiledIn(before, tasks[t].dependencies, task)
      requires forall t :: t in tasks ==> FiledIn(before, tasks[t].dependents, task)
      requires h.Keys == tasks.Keys
      requires forall t :: t in tasks ==> tasks[t].View() == h[t]
      ensures Linked() && View() == h
    {
      forall t | t in tasks
        ensures Filed(tasks[t].dependencies) && Filed(tasks[t].dependents)
      {
        assert FiledIn(before, tasks[t].dependencies, task) && FiledIn(before, tasks[t].dependents, task);
      }
    }

    /** The maps `topological_order` starts from, filled in the order the tasks happen to be walked. */
    method DegreesAndAdjacency() returns (indegree: map<TaskId, nat>, adjacency: map<TaskId, seq<TaskId>>)
      requires Linked()
      ensures indegree.Keys == adjacency.Keys == tasks.Keys
      ensures forall id :: id in tasks ==>
              indegree[id] == |View()[id].dependencies| && adjacency[id] == View()[id].dependents
    {
      indegree, adjacency := map[], map[];
      var rest := tasks.Keys;
      while rest != {}
        invariant rest <= tasks.Keys
        invariant indegree.Keys == adjacency.Keys == tasks.Keys - rest
        invariant forall id :: id in indegree ==>
                    indegree[id] == |Ids(tasks[id].dependencies)| && adjacency[id] == Ids(tasks[id].dependents)
      {
        var id :| id in rest;
        rest := rest - {id};
        indegree := indegree[id := |tasks[id].dependencies|];
        adjacency := adjacency[id := Ids(tasks[id].dependents)];
      }
    }

    /** The task ids in dependency order: exactly the tasks that no cycle leads to, whatever order
        the maps are walked in. */
    method TopologicalOrder(ghost g: Deps) returns (order: seq<TaskId>)
      requires Linked() && WellFormed(View())
      requires g == DepsOf(View())
      ensures NoDuplicates(order)
      ensures DependenciesFirst(g, order)
      ensures forall t :: t in g ==> (t !in order <==> BelowCycle(g, t))
      ensures |order| != |g| <==> Cyclic(g)
    {
      var indegree, adjacency := DegreesAndAdjacency();
      MirrorOf(View(), adjacency);
      order := SortFrom(g, indegree, adjacency);
    }

    method HasCycles(ghost g: Deps) returns (r: bool)
      requires Linked() && WellFormed(View())
      requires g == DepsOf(View())
      ensures r <==> Cyclic(g)
    {
      var order := TopologicalOrder(g);
      assert |g.Keys| == |g| && |tasks.Keys| == |tasks| && g.Keys == tasks.Keys;
      return |order| != |tasks|;
    }
  }
}
