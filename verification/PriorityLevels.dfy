/** The value side of include/task_engine/thread_pool.hpp: four first-in first-out levels, and what
    they amount to as one list of waiting tasks. */
module PriorityLevels {
  import opened Tasks
  import opened Options

  /** One queue for each priority, lowest first. */
  type Levels = s: seq<seq<TaskId>> | |s| == 4 witness [[], [], [], []]

  function PriorityIndex(priority: TaskPriority): (i: nat)
    ensures i < 4
  {
    match priority
    case Low => 0
    case Normal => 1
    case High => 2
    case Critical => 3
  }

  /** The order of the priorities by name: Critical over High over Normal over Low. */
  predicate Outranks(p: TaskPriority, q: TaskPriority) {
    match p
    case Critical => !q.Critical?
    case High => q.Normal? || q.Low?
    case Normal => q.Low?
    case Low => false
  }

  lemma IndexIsRank(p: TaskPriority, q: TaskPriority)
    ensures PriorityIndex(p) > PriorityIndex(q) <==> Outranks(p, q)
  {
  }

  lemma PriorityIndexInjective(p: TaskPriority, q: TaskPriority)
    ensures PriorityIndex(p) == PriorityIndex(q) <==> p == q
  {
  }

  function Put(levels: Levels, priority: TaskPriority, task: TaskId): Levels {
    var i := PriorityIndex(priority);
    levels[i := levels[i] + [task]]
  }

  /** The highest level below n that is not empty, or none. */
  function HighestBelow(levels: Levels, n: nat): (r: Option<nat>)
    requires n <= 4
    ensures r.Some? ==> r.value < n && levels[r.value] != [] && forall j :: r.value < j < n ==> levels[j] == []
    ensures r == None ==> forall j :: 0 <= j < n ==> levels[j] == []
  {
    if n == 0 then None else if levels[n - 1] != [] then Some(n - 1) else HighestBelow(levels, n - 1)
  }

  /** What `try_dequeue_highest` returns, and what it leaves. */
  function Taken(levels: Levels): Option<TaskId> {
    var h := HighestBelow(levels, 4);
    if h == None then None else Some(levels[h.value][0])
  }

  function Left(levels: Levels): Levels {
    var h := HighestBelow(levels, 4);
    if h == None then levels else levels[h.value := levels[h.value][1..]]
  }

  /** A dequeue, told by the names of the priorities: task was the first at some priority, everything
      that outranks it was empty, and the other queues are as they were. */
  ghost predicate TakesHighest(levels: Levels, task: TaskId, levels': Levels) {
    exists p :: TakesFrom(levels, p, task, levels')
  }

  ghost predicate TakesFrom(levels: Levels, p: TaskPriority, task: TaskId, levels': Levels) {
    && levels[PriorityIndex(p)] == [task] + levels'[PriorityIndex(p)]
    && (forall q :: Outranks(q, p) ==> levels[PriorityIndex(q)] == [])
    && (forall q :: q != p ==> levels'[PriorityIndex(q)] == levels[PriorityIndex(q)])
  }

  /** The priority whose queue has an index. */
  function Nth(i: nat): (p: TaskPriority)
    requires i < 4
    ensures PriorityIndex(p) == i
  {
    if i == 0 then Low else if i == 1 then Normal else if i == 2 then High else Critical
  }

  lemma NthOf(p: TaskPriority)
    ensures Nth(PriorityIndex(p)) == p
  {
  }

  lemma TakenIsHighest(levels: Levels)
    ensures Taken(levels).Some? ==> TakesHighest(levels, Taken(levels).value, Left(levels))
    ensures Taken(levels) == None <==> forall p :: levels[PriorityIndex(p)] == []
    ensures Taken(levels) == None ==> Left(levels) == levels
  {
    var h := HighestBelow(levels, 4);
    if h.Some? {
      var p := Nth(h.value);
      assert levels[PriorityIndex(p)] != [];
      forall q
        ensures q != p ==> PriorityIndex(q) != h.value
        ensures Outranks(q, p) ==> PriorityIndex(q) > h.value
      {
        PriorityIndexInjective(p, q);
      }
      assert TakesFrom(levels, p, Taken(levels).value, Left(levels));
    }
  }

  function Size(levels: Levels): nat {
    |levels[0]| + |levels[1]| + |levels[2]| + |levels[3]|
  }

  ghost function Bag(levels: Levels): multiset<TaskId> {
    multiset(levels[0]) + multiset(levels[1]) + multiset(levels[2]) + multiset(levels[3])
  }

  lemma BagSize(levels: Levels)
    ensures |Bag(levels)| == Size(levels)
  {
  }

  lemma PutBag(levels: Levels, priority: TaskPriority, task: TaskId)
    ensures Bag(Put(levels, priority, task)) == Bag(levels) + multiset{task}
  {
  }

  lemma PopBag(levels: Levels, i: nat)
    requires i < 4 && levels[i] != []
    ensures Bag(levels) == Bag(levels[i := levels[i][1..]]) + multiset{levels[i][0]}
  {
    assert levels[i] == [levels[i][0]] + levels[i][1..];
  }

  // ---- one list of waiting tasks

  datatype Entry = Entry(task: TaskId, priority: TaskPriority)

  /** The tasks of one priority, in order. */
  function Level(waiting: seq<Entry>, i: nat): seq<TaskId> {
    if waiting == [] then [] else
      Level(waiting[..|waiting| - 1], i)
      + if PriorityIndex(waiting[|waiting| - 1].priority) == i then [waiting[|waiting| - 1].task] else []
  }

  function Route(waiting: seq<Entry>): Levels {
    [Level(waiting, 0), Level(waiting, 1), Level(waiting, 2), Level(waiting, 3)]
  }

  /** k is the oldest entry of the highest priority present. */
  ghost predicate IsBest(waiting: seq<Entry>, k: nat) {
    && k < |waiting|
    && (forall j :: 0 <= j < |waiting| ==> !Outranks(waiting[j].priority, waiting[k].priority))
    && (forall j :: 0 <= j < k ==> waiting[j].priority != waiting[k].priority)
  }

  lemma {:induction false} LevelConcat(a: seq<Entry>, b: seq<Entry>, i: nat)
    ensures Level(a + b, i) == Level(a, i) + Level(b, i)
  {
    if b == [] {
      assert a + b == a;
    } else {
      var n := |b| - 1;
      assert (a + b)[..|a + b| - 1] == a + b[..n];
      LevelConcat(a, b[..n], i);
    }
  }

  lemma {:induction false} LevelNone(a: seq<Entry>, i: nat)
    ensures Level(a, i) == [] <==> forall j :: 0 <= j < |a| ==> PriorityIndex(a[j].priority) != i
  {
    if a != [] {
      LevelNone(a[..|a| - 1], i);
    }
  }

  lemma LevelOne(e: Entry, i: nat)
    ensures Level([e], i) == if PriorityIndex(e.priority) == i then [e.task] else []
  {
    assert [e][..0] == [];
  }

  lemma RouteAppend(waiting: seq<Entry>, e: Entry)
    ensures Route(waiting + [e]) == Put(Route(waiting), e.priority, e.task)
  {
    hide Level;
    forall i | 0 <= i < 4
      ensures Level(waiting + [e], i) == Level(waiting, i) + if PriorityIndex(e.priority) == i then [e.task] else []
    {
      LevelConcat(waiting, [e], i);
      LevelOne(e, i);
    }
    RouteAt(waiting + [e]);
    RouteAt(waiting);
    forall i | 0 <= i < 4
      ensures Route(waiting + [e])[i] == Put(Route(waiting), e.priority, e.task)[i]
    {
    }
  }

  lemma RouteAt(waiting: seq<Entry>)
    ensures forall i {:trigger Route(waiting)[i]} {:trigger Level(waiting, i)} :: 0 <= i < 4 ==>
            Route(waiting)[i] == Level(waiting, i)
  {
  }

  /** One entry taken out of the list is taken out of its level only. */
  lemma LevelWithout(waiting: seq<Entry>, k: nat, i: nat)
    requires k < |waiting|
    ensures var one := if PriorityIndex(waiting[k].priority) == i then [waiting[k].task] else [];
            Level(waiting, i) == Level(waiting[..k], i) + one + Level(waiting[k + 1..], i)
    ensures Level(waiting[..k] + waiting[k + 1..], i) == Level(waiting[..k], i) + Level(waiting[k + 1..], i)
  {
    hide Level;
    var before, e, after := waiting[..k], waiting[k], waiting[k + 1..];
    assert waiting == (before + [e]) + after;
    LevelConcat(before + [e], after, i);
    LevelConcat(before, [e], i);
    LevelConcat(before, after, i);
    LevelOne(e, i);
  }

  lemma BestLevels(waiting: seq<Entry>, k: nat)
    requires IsBest(waiting, k)
    ensures var h := PriorityIndex(waiting[k].priority);
            && Level(waiting, h) == [waiting[k].task] + Level(waiting[k + 1..], h)
            && Level(waiting[..k], h) == []
            && forall j :: h < j < 4 ==> Level(waiting, j) == []
  {
    hide Level;
    var h := PriorityIndex(waiting[k].priority);
    forall j | h < j < 4
      ensures Level(waiting, j) == []
    {
      LevelNone(waiting, j);
    }
    forall j | 0 <= j < k
      ensures PriorityIndex(waiting[..k][j].priority) != h
    {
      PriorityIndexInjective(waiting[j].priority, waiting[k].priority);
    }
    LevelNone(waiting[..k], h);
    LevelWithout(waiting, k, h);
  }

  /** The four levels refine the list: a dequeue takes the oldest waiting task of the highest
      priority, and leaves the rest in order. */
  lemma DequeueTakesTheBest(waiting: seq<Entry>, k: nat)
    requires IsBest(waiting, k)
    ensures Taken(Route(waiting)) == Some(waiting[k].task)
    ensures Left(Route(waiting)) == Route(waiting[..k] + waiting[k + 1..])
  {
    hide Level;
    var h, rest := PriorityIndex(waiting[k].priority), waiting[..k] + waiting[k + 1..];
    BestLevels(waiting, k);
    RouteAt(waiting);
    RouteAt(rest);
    hide Route, IsBest;
    assert Route(waiting)[h] == Level(waiting, h);
    assert HighestBelow(Route(waiting), 4) == Some(h);
    forall i | 0 <= i < 4
      ensures Level(rest, i) == if i == h then Level(waiting, i)[1..] else Level(waiting, i)
    {
      LevelWithout(waiting, k, i);
    }
    forall i | 0 <= i < 4
      ensures Left(Route(waiting))[i] == Route(rest)[i]
    {
    }
  }

  /** The oldest entry of the highest priority. */
  function Best(waiting: seq<Entry>): (k: nat)
    requires waiting != []
    ensures IsBest(waiting, k)
  {
    var n := |waiting| - 1;
    if n == 0 then 0 else
      var k := Best(waiting[..n]);
      if Outranks(waiting[n].priority, waiting[k].priority) then n else k
  }

  lemma DequeueFindsNothingIff(waiting: seq<Entry>)
    ensures Taken(Route(waiting)) == None <==> waiting == []
    ensures Taken(Route(waiting)) == None ==> Left(Route(waiting)) == Route(waiting)
  {
    if waiting != [] {
      DequeueTakesTheBest(waiting, Best(waiting));
    }
  }

  // ---- mixed sequences of operations

  datatype Op = Accept(entry: Entry) | Dequeue

  /** Four levels, and what the dequeues returned. */
  datatype LevelRun = LevelRun(levels: Levels, returned: seq<Option<TaskId>>)

  function RunLevels(ops: seq<Op>): LevelRun {
    if ops == [] then LevelRun([[], [], [], []], []) else
      var r := RunLevels(ops[..|ops| - 1]);
      match ops[|ops| - 1]
      case Accept(e) => r.(levels := Put(r.levels, e.priority, e.task))
      case Dequeue => LevelRun(Left(r.levels), r.returned + [Taken(r.levels)])
  }

  /** One list, from which each dequeue takes the best entry. */
  datatype ListRun = ListRun(waiting: seq<Entry>, returned: seq<Option<TaskId>>)

  function RunList(ops: seq<Op>): ListRun {
    if ops == [] then ListRun([], []) else
      var r := RunList(ops[..|ops| - 1]);
      match ops[|ops| - 1]
      case Accept(e) => r.(waiting := r.waiting + [e])
      case Dequeue =>
        if r.waiting == [] then r.(returned := r.returned + [None]) else
          var k := Best(r.waiting);
          ListRun(r.waiting[..k] + r.waiting[k + 1..], r.returned + [Some(r.waiting[k].task)])
  }

  /** Whatever the mix of operations, every dequeue returns the oldest accepted task of the highest
      priority among those still waiting. */
  lemma {:induction false} LevelsRefineTheList(ops: seq<Op>)
    ensures RunLevels(ops).levels == Route(RunList(ops).waiting)
    ensures RunLevels(ops).returned == RunList(ops).returned
  {
    hide Route, Taken, Left, Put, IsBest, Best;
    if ops == [] {
      RouteEmpty();
    } else {
      LevelsRefineTheList(ops[..|ops| - 1]);
      var w := RunList(ops[..|ops| - 1]).waiting;
      match ops[|ops| - 1]
      case Accept(e) => RouteAppend(w, e);
      case Dequeue =>
        DequeueFindsNothingIff(w);
        if w != [] {
          BestDequeue(w);
        }
    }
  }

  lemma BestDequeue(waiting: seq<Entry>)
    requires waiting != []
    ensures Best(waiting) < |waiting|
    ensures Taken(Route(waiting)) == Some(waiting[Best(waiting)].task)
    ensures Left(Route(waiting)) == Route(waiting[..Best(waiting)] + waiting[Best(waiting) + 1..])
  {
    DequeueTakesTheBest(waiting, Best(waiting));
  }

  lemma RouteEmpty()
    ensures Route([]) == [[], [], [], []]
  {
  }

  // ---- draining is stable sorting

  /** Insert e behind everything of at least its priority. */
  function Insert(sorted: seq<Entry>, e: Entry): seq<Entry> {
    if sorted == [] then [e]
    else if Outranks(e.priority, sorted[|sorted| - 1].priority)
    then Insert(sorted[..|sorted| - 1], e) + [sorted[|sorted| - 1]]
    else sorted + [e]
  }

  /** Stable insertion sort by descending priority. */
  function StableSort(waiting: seq<Entry>): seq<Entry> {
    if waiting == [] then [] else Insert(StableSort(waiting[..|waiting| - 1]), waiting[|waiting| - 1])
  }

  ghost predicate Descending(s: seq<Entry>) {
    forall i, j :: 0 <= i < j < |s| ==> !Outranks(s[j].priority, s[i].priority)
  }

  lemma {:induction false} InsertKeeps(sorted: seq<Entry>, e: Entry)
    requires Descending(sorted)
    ensures Descending(Insert(sorted, e))
    ensures |Insert(sorted, e)| == |sorted| + 1
    ensures forall x :: x in Insert(sorted, e) ==> x == e || x in sorted
    ensures forall i: nat :: Level(Insert(sorted, e), i) == Level(sorted + [e], i)
  {
    hide Level;
    var n := |sorted| - 1;
    if n < 0 {
      assert sorted + [e] == [e];
    } else if Outranks(e.priority, sorted[n].priority) {
      InsertKeeps(sorted[..n], e);
      var inserted := Insert(sorted[..n], e);
      forall i | 0 <= i < n + 1
        ensures !Outranks(sorted[n].priority, inserted[i].priority)
      {
        assert inserted[i] in inserted;
      }
      forall i: nat
        ensures Level(Insert(sorted[..n], e) + [sorted[n]], i) == Level(sorted + [e], i)
      {
        InsertKeepsLevel(sorted[..n], Insert(sorted[..n], e), sorted[n], e, i);
        assert sorted == sorted[..n] + [sorted[n]];
      }
    }
  }

  lemma InsertKeepsLevel(front: seq<Entry>, inserted: seq<Entry>, last: Entry, e: Entry, i: nat)
    requires PriorityIndex(last.priority) != PriorityIndex(e.priority)
    requires Level(inserted, i) == Level(front + [e], i)
    ensures Level(inserted + [last], i) == Level((front + [last]) + [e], i)
  {
    hide Level;
    LevelConcat(inserted, [last], i);
    LevelConcat(front, [e], i);
    LevelConcat(front + [last], [e], i);
    LevelConcat(front, [last], i);
    LevelOne(last, i);
    LevelOne(e, i);
  }

  /** The reference sort is a sort, and stable: it keeps each priority's tasks in order. */
  lemma {:induction false} StableSortSorts(waiting: seq<Entry>)
    ensures Descending(StableSort(waiting))
    ensures |StableSort(waiting)| == |waiting|
    ensures forall i: nat :: Level(StableSort(waiting), i) == Level(waiting, i)
  {
    if waiting != [] {
      var n := |waiting| - 1;
      var front, e := StableSort(waiting[..n]), waiting[n];
      StableSortSorts(waiting[..n]);
      InsertKeeps(front, e);
      forall i: nat
        ensures Level(Insert(front, e), i) == Level(waiting, i)
      {
        LevelConcat(front, [e], i);
        LevelConcat(waiting[..n], [e], i);
        assert waiting == waiting[..n] + [e];
      }
    }
  }

  /** Everything `try_dequeue_highest` returns until it finds nothing. */
  function Drain(levels: Levels): seq<TaskId>
    decreases Size(levels)
  {
    if Taken(levels) == None then [] else
      var h := HighestBelow(levels, 4).value;
      assert Size(levels[h := levels[h][1..]]) < Size(levels);
      [Taken(levels).value] + Drain(Left(levels))
  }

  function TasksOf(s: seq<Entry>): seq<TaskId> {
    seq(|s|, i requires 0 <= i < |s| => s[i].task)
  }

  lemma DrainStep(levels: Levels)
    ensures Taken(levels) == None ==> Drain(levels) == []
    ensures Taken(levels).Some? ==> Drain(levels) == [Taken(levels).value] + Drain(Left(levels))
  {
  }

  /** A sorted list starts with its best entry; sorting what is left of the list leaves the rest. */
  lemma {:induction false} DrainSorted(s: seq<Entry>)
    requires Descending(s)
    ensures Drain(Route(s)) == TasksOf(s)
  {
    hide Route, Taken, Left, Drain, TasksOf;
    DrainStep(Route(s));
    TasksOfStep(s);
    if s == [] {
      DequeueFindsNothingIff(s);
    } else {
      assert IsBest(s, 0);
      DequeueTakesTheBest(s, 0);
      assert s[..0] + s[1..] == s[1..];
      DrainSorted(s[1..]);
    }
  }

  lemma TasksOfStep(s: seq<Entry>)
    ensures TasksOf(s) == if s == [] then [] else [s[0].task] + TasksOf(s[1..])
  {
  }

  /** Draining the levels yields the stable sort by descending priority of the tasks accepted. */
  lemma DrainIsStableSort(waiting: seq<Entry>)
    ensures Drain(Route(waiting)) == TasksOf(StableSort(waiting))
  {
    var s := StableSort(waiting);
    StableSortSorts(waiting);
    assert Route(s) == Route(waiting);
    DrainSorted(s);
  }
}
