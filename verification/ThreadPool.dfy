/** include/task_engine/thread_pool.hpp: the priority queue set, and the pool of per-worker sets
    with a global one behind them. */
module ThreadPools {
  import opened Tasks
  import opened BitMask
  import opened Options
  import opened TaskQueues
  import opened PriorityLevels
  import opened PoolModel

  lemma PowerCapacities()
    ensures AcceptsCapacity(LOCAL_CAPACITY) && AcceptsCapacity(GLOBAL_CAPACITY)
  {
    assert Pow2(9) == LOCAL_CAPACITY && Pow2(11) == GLOBAL_CAPACITY;
    AcceptsCapacityIff(LOCAL_CAPACITY);
    AcceptsCapacityIff(GLOBAL_CAPACITY);
  }

  class PriorityQueueSet {
    const capacity: nat
    const strongCas: bool
    const queues: seq<LockFreeTaskQueue<TaskId>>
    ghost const Repr: set<object>

    ghost predicate Valid()
      reads Repr
    {
      && |queues| == 4
      && (forall i :: 0 <= i < 4 ==> queues[i] in Repr && queues[i].buffer in Repr)
      && (forall i, j :: 0 <= i < j < 4 ==> queues[i] != queues[j] && queues[i].buffer != queues[j].buffer)
      && (forall i :: 0 <= i < 4 ==> queues[i].capacity == capacity && queues[i].strongCas == strongCas)
      && (forall i :: 0 <= i < 4 ==> queues[i].Valid())
    }

    ghost function View(): Levels
      reads Repr
      requires Valid()
    {
      [queues[0].Contents(), queues[1].Contents(), queues[2].Contents(), queues[3].Contents()]
    }

    constructor (capacity: nat, strongCas: bool)
      requires AcceptsCapacity(capacity) && capacity > 0
      ensures Valid() && fresh(Repr)
      ensures this.capacity == capacity && this.strongCas == strongCas
      ensures View() == [[], [], [], []]
    {
      hide LockFreeTaskQueue.Valid, LockFreeTaskQueue.Contents;
      this.capacity, this.strongCas := capacity, strongCas;
      var q0 := new LockFreeTaskQueue<TaskId>(capacity, strongCas);
      var q1 := new LockFreeTaskQueue<TaskId>(capacity, strongCas);
      var q2 := new LockFreeTaskQueue<TaskId>(capacity, strongCas);
      var q3 := new LockFreeTaskQueue<TaskId>(capacity, strongCas);
      queues := [q0, q1, q2, q3];
      Repr := {q0, q1, q2, q3, q0.buffer, q1.buffer, q2.buffer, q3.buffer};
    }

    /** Only the queue of the priority is touched; a full queue refuses. */
    method TryEnqueue(task: TaskId, priority: TaskPriority) returns (ok: bool)
      requires Valid()
      modifies Repr
      ensures Valid()
      ensures View() == if ok then Put(old(View()), priority, task) else old(View())
      ensures ok ==> |old(View())[PriorityIndex(priority)]| < capacity - 1
      ensures strongCas ==> (ok <==> |old(View())[PriorityIndex(priority)]| < capacity - 1)
    {
      hide LockFreeTaskQueue.Valid, LockFreeTaskQueue.Contents;
      ok := queues[PriorityIndex(priority)].TryEnqueue(task);
    }

    method TryLevel(idx: nat) returns (r: Option<TaskId>)
      requires Valid() && idx < 4
      modifies Repr
      ensures Valid()
      ensures r.Some? ==> old(View())[idx] != [] && r.value == old(View())[idx][0]
                          && View() == old(View())[idx := old(View())[idx][1..]]
      ensures r == None ==> View() == old(View())
      ensures strongCas ==> (r == None <==> old(View())[idx] == [])
    {
      hide LockFreeTaskQueue.Valid, LockFreeTaskQueue.Contents;
      r := queues[idx].TryDequeue();
    }

    ghost predicate HeadOf(levels: Levels, i: nat, task: TaskId)
      requires i < 4
    {
      levels[i] != [] && levels[i][0] == task
    }

    method TryDequeueHighest() returns (r: Option<TaskId>)
      requires Valid()
      modifies Repr
      ensures Valid()
      ensures r.Some? ==> exists i ::
                0 <= i < 4 && HeadOf(old(View()), i, r.value) && View() == old(View())[i := old(View())[i][1..]]
      ensures r.Some? ==> Bag(old(View())) == Bag(View()) + multiset{r.value}
      ensures r == None ==> View() == old(View())
      ensures strongCas ==> r == Taken(old(View())) && View() == Left(old(View()))
      ensures strongCas && r.Some? ==> TakesHighest(old(View()), r.value, View())
      ensures strongCas && r == None ==> forall p :: old(View())[PriorityIndex(p)] == []
    {
      hide LockFreeTaskQueue.Valid, LockFreeTaskQueue.Contents, Valid, View, Bag;
      ghost var before := View();
      TakenIsHighest(before);
      var idx := 4;
      while idx > 0
        invariant 0 <= idx <= 4
        invariant Valid() && View() == before
        invariant strongCas ==> forall j :: idx <= j < 4 ==> before[j] == []
      {
        idx := idx - 1;
        r := TryLevel(idx);
        if r.Some? {
          PopBag(before, idx);
          assert HeadOf(before, idx, r.value);
          return;
        }
      }
      return None;
    }

    method Empty() returns (r: bool)
      requires Valid()
      ensures r <==> Bag(View()) == multiset{}
    {
      hide LockFreeTaskQueue.Valid, LockFreeTaskQueue.Contents;
      BagSize(View());
      for i := 0 to 4
        invariant forall j :: 0 <= j < i ==> View()[j] == []
      {
        var e := queues[i].Empty();
        if !e {
          assert View()[i] != [];
          return false;
        }
      }
      return true;
    }

    method Size() returns (total: nat)
      requires Valid()
      ensures total == |Bag(View())|
    {
      hide LockFreeTaskQueue.Valid, LockFreeTaskQueue.Contents;
      total := 0;
      for i := 0 to 4
        invariant i == 1 ==> total == |View()[0]|
        invariant i == 0 ==> total == 0
        invariant i == 2 ==> total == |View()[0]| + |View()[1]|
        invariant i == 3 ==> total == |View()[0]| + |View()[1]| + |View()[2]|
        invariant i == 4 ==> total == PriorityLevels.Size(View())
      {
        var size := queues[i].Size();
        total := total + size;
      }
      BagSize(View());
    }
  }

  ghost predicate EmptySet(queues: PriorityQueueSet, capacity: nat, strongCas: bool)
    reads queues.Repr
  {
    && queues.capacity == capacity && queues.strongCas == strongCas
    && queues.Valid() && queues.View() == [[], [], [], []]
  }

  method NewSet(capacity: nat, strongCas: bool) returns (queues: PriorityQueueSet)
    requires AcceptsCapacity(capacity) && capacity > 0
    ensures fresh(queues.Repr) && EmptySet(queues, capacity, strongCas)
  {
    queues := new PriorityQueueSet(capacity, strongCas);
  }

  /** One new set for each worker. */
  method LocalSets(n: nat, strongCas: bool) returns (sets: seq<PriorityQueueSet>, ghost repr: set<object>)
    ensures |sets| == n && fresh(repr)
    ensures forall k :: 0 <= k < n ==> sets[k].Repr <= repr && EmptySet(sets[k], LOCAL_CAPACITY, strongCas)
    ensures forall k, l :: 0 <= k < l < n ==> sets[k].Repr !! sets[l].Repr
  {
    hide EmptySet;
    PowerCapacities();
    sets, repr := [], {};
    for i := 0 to n
      invariant |sets| == i && fresh(repr)
      invariant forall k :: 0 <= k < i ==> sets[k].Repr <= repr && EmptySet(sets[k], LOCAL_CAPACITY, strongCas)
      invariant forall k, l :: 0 <= k < l < i ==> sets[k].Repr !! sets[l].Repr
    {
      var queues := NewSet(LOCAL_CAPACITY, strongCas);
      sets := sets + [queues];
      repr := repr + queues.Repr;
    }
  }

  class ThreadPool {
    const numThreads: nat
    const strongCas: bool
    const locals: seq<PriorityQueueSet>
    const global: PriorityQueueSet
    ghost const Repr: set<object>
    var nextWorker: nat

    ghost predicate Valid()
      reads this, Repr
    {
      && |locals| == numThreads
      && this !in Repr
      && SetOk(global, GLOBAL_CAPACITY)
      && (forall i :: 0 <= i < |locals| ==> SetOk(locals[i], LOCAL_CAPACITY) && locals[i].Repr !! global.Repr)
      && (forall i, j :: 0 <= i < j < |locals| ==> locals[i].Repr !! locals[j].Repr)
    }

    ghost predicate SetOk(queues: PriorityQueueSet, capacity: nat)
      reads Repr
    {
      && queues.Repr <= Repr
      && queues.capacity == capacity && queues.strongCas == strongCas
      && queues.Valid()
    }

    ghost function LocalViews(): (views: seq<Levels>)
      reads this, Repr
      requires Valid()
      ensures |views| == numThreads
      ensures forall i :: 0 <= i < numThreads ==> views[i] == locals[i].View()
    {
      seq(numThreads, i requires 0 <= i < numThreads && Valid() reads this, Repr => locals[i].View())
    }

    ghost function View(): (pool: Pool)
      reads this, Repr
      requires Valid()
      ensures |pool.locals| == |locals| == numThreads
    {
      Pool(LocalViews(), global.View(), nextWorker)
    }

    ghost function SetAt(source: Source): PriorityQueueSet
      requires source.Local? ==> source.worker < |locals|
    {
      if source.Global? then global else locals[source.worker]
    }

    constructor (numThreads: nat, strongCas: bool)
      ensures Valid() && fresh(Repr)
      ensures this.numThreads == numThreads && this.strongCas == strongCas
      ensures View() == EmptyPool(numThreads)
    {
      hide PriorityQueueSet.Valid, PriorityQueueSet.View;
      PowerCapacities();
      this.numThreads, this.strongCas, nextWorker := numThreads, strongCas, 0;
      var g := NewSet(GLOBAL_CAPACITY, strongCas);
      var sets, repr := LocalSets(numThreads, strongCas);
      global, locals, Repr := g, sets, g.Repr + repr;
    }

    /** One set has changed from before to now, and no other. */
    twostate lemma OneSetChanged(source: Source)
      requires old(Valid()) && Valid() && nextWorker == old(nextWorker)
      requires source.Local? ==> source.worker < |locals|
      requires forall o :: o in Repr && o !in SetAt(source).Repr ==> unchanged(o)
      ensures View() == With(old(View()), source, SetAt(source).View())
    {
      hide PriorityQueueSet.Valid, PriorityQueueSet.View;
      forall i | 0 <= i < numThreads && Local(i) != source
        ensures locals[i].View() == old(locals[i].View())
      {
      }
    }

    /** Enqueue in one of the sets. */
    method PutIn(source: Source, task: TaskId, priority: TaskPriority) returns (ok: bool)
      requires Valid() && (source.Local? ==> source.worker < |locals|)
      modifies Repr
      ensures Valid()
      ensures ok ==> View() == With(old(View()), source, Put(At(old(View()), source), priority, task))
      ensures !ok ==> View() == old(View())
      ensures strongCas ==>
                (ok <==> |At(old(View()), source)[PriorityIndex(priority)]|
                         < (if source.Global? then GLOBAL_CAPACITY else LOCAL_CAPACITY) - 1)
    {
      hide PriorityQueueSet.Valid, PriorityQueueSet.View, Put;
      ghost var before := View();
      if source == Global {
        ok := global.TryEnqueue(task, priority);
      } else {
        ok := locals[source.worker].TryEnqueue(task, priority);
      }
      OneSetChanged(source);
      assert !ok ==> With(before, source, At(before, source)) == before;
    }

    /** `try_submit_to_local`: the workers take turns. */
    method TrySubmitToLocal(task: TaskId, priority: TaskPriority) returns (ok: bool)
      requires Valid() && numThreads > 0
      modifies this`nextWorker, Repr
      ensures Valid()
      ensures View() == Submitted(old(View()), if ok then Some(Local(Target(old(View())))) else None, task, priority)
      ensures strongCas ==>
                (ok <==> |old(View()).locals[Target(old(View()))][PriorityIndex(priority)]| < LOCAL_CAPACITY - 1)
    {
      hide PriorityQueueSet.Valid, PriorityQueueSet.View, Put;
      var target := nextWorker % numThreads;
      nextWorker := nextWorker + 1;
      ok := PutIn(Local(target), task, priority);
    }

    /** `try_submit`, and the attempt of `submit` that succeeds: the local set in turn, or the
        global set. */
    method TrySubmit(task: TaskId, priority: TaskPriority) returns (ok: bool, ghost source: Option<Source>)
      requires Valid() && numThreads > 0
      modifies this`nextWorker, Repr
      ensures Valid()
      ensures ok <==> source.Some?
      ensures source.Some? ==> source.value == Local(old(nextWorker) % numThreads) || source.value == Global
      ensures nextWorker == old(nextWorker) + 1
      ensures View() == Submitted(old(View()), source, task, priority)
      ensures strongCas ==> source == Room(old(View()), priority)
      ensures PoolBag(View()) == PoolBag(old(View())) + if ok then multiset{task} else multiset{}
    {
      hide PriorityQueueSet.Valid, PriorityQueueSet.View, Put, LocalsBag, Bag, Valid;
      ghost var before := View();
      ok := TrySubmitToLocal(task, priority);
      if ok {
        source := Some(Local(Target(before)));
        SubmittedBag(before, source.value, task, priority);
      } else {
        ok := PutIn(Global, task, priority);
        source := if ok then Some(Global) else None;
        if ok {
          SubmittedBag(before, Global, task, priority);
        }
      }
    }

    /** Dequeue from one of the sets. */
    method TakeFrom(source: Source) returns (r: Option<TaskId>)
      requires Valid() && (source.Local? ==> source.worker < |locals|)
      modifies Repr
      ensures Valid()
      ensures r.Some? ==> PoolBag(old(View())) == PoolBag(View()) + multiset{r.value}
      ensures r == None ==> View() == old(View())
      ensures strongCas ==> r == Taken(At(old(View()), source))
      ensures strongCas ==> View() == With(old(View()), source, Left(At(old(View()), source)))
    {
      hide PriorityQueueSet.Valid, PriorityQueueSet.View, Taken, Left, LocalsBag, Bag;
      ghost var before := View();
      if source == Global {
        r := global.TryDequeueHighest();
      } else {
        r := locals[source.worker].TryDequeueHighest();
      }
      OneSetChanged(source);
      ghost var levels := SetAt(source).View();
      assert View() == With(before, source, levels);
      if r.Some? {
        WithBag(before, source, levels);
        TakenOff(PoolBag(View()), PoolBag(before), Bag(levels), multiset{r.value});
      } else {
        assert With(before, source, At(before, source)) == before;
      }
    }

    /** The search of `worker_loop`: the own set, the global set, then the other workers' sets. */
    method FindTask(worker: nat) returns (r: Option<TaskId>)
      requires Valid() && worker < numThreads
      modifies Repr
      ensures Valid()
      ensures r.Some? ==> PoolBag(old(View())) == PoolBag(View()) + multiset{r.value}
      ensures r == None ==> View() == old(View())
      ensures strongCas ==> r == Found(old(View()), worker) && View() == Searched(old(View()), worker)
      ensures strongCas ==> SearchesInOrder(old(View()), worker, r, View())
    {
      hide PriorityQueueSet.Valid, PriorityQueueSet.View, Taken, Left, PoolBag, Valid, SearchesInOrder;
      ghost var before := View();
      SearchOrder(before, worker);
      r := TakeFrom(Local(worker));
      if r == None {
        r := TakeFrom(Global);
      }
      if r == None {
        for i := 0 to numThreads
          invariant Valid() && View() == before && r == None
          invariant strongCas ==> Taken(before.locals[worker]) == None && Taken(before.global) == None
          invariant strongCas ==> Victim(before.locals, worker, 0) == Victim(before.locals, worker, i)
        {
          if i == worker {
            continue;
          }
          r := TakeFrom(Local(i));
          if r.Some? {
            break;
          }
        }
      }
    }

    method PendingTasks() returns (total: nat)
      requires Valid()
      ensures total == |PoolBag(View())|
    {
      hide PriorityQueueSet.Valid, PriorityQueueSet.View, Bag;
      total := global.Size();
      for i := 0 to numThreads
        invariant total == |LocalsBag(LocalViews()[..i])| + |Bag(global.View())|
      {
        var size := locals[i].Size();
        LocalsBagLast(LocalViews()[..i + 1], i);
        assert LocalViews()[..i + 1][..i] == LocalViews()[..i];
        total := total + size;
      }
      assert LocalViews()[..numThreads] == LocalViews();
    }
  }

  lemma TakenOff(after: multiset<TaskId>, before: multiset<TaskId>, rest: multiset<TaskId>, task: multiset<TaskId>)
    requires after + (rest + task) == before + rest
    ensures before == after + task
  {
    assert before + rest == (after + task) + rest;
    Cancel(before, after + task, rest, multiset{});
  }
}
