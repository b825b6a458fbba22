/** include/task_engine/task_scheduler.hpp:137-174: how long a due task can wait for the loop. */
module DispatchDelay {
  import opened TimedScheduling

  /** A step of the loop thread; reading the time again while asleep is none. */
  predicate LoopStep(step: Step) {
    step.Sleep? || step.Wake? || step.Pop? || step.Submit? || step.Push?
  }

  ghost predicate LoopRests(s: State) {
    forall step :: LoopStep(step) ==> !Enabled(s, step)
  }

  lemma {:induction false} SomeTop(heap: multiset<Entry>) returns (task: Entry)
    requires heap != multiset{}
    ensures IsTop(heap, task)
    decreases |heap|
  {
    var e :| e in heap;
    var rest := heap[e := 0];
    assert forall f :: f in heap ==> f == e || f in rest;
    if rest == multiset{} {
      task := e;
    } else {
      task := SomeTop(rest);
      if e.time < task.time {
        task := e;
      }
    }
  }

  /** The loop has nothing to do if and only if it looks at an empty heap or sleeps. */
  lemma LoopRestsIff(s: State)
    ensures LoopRests(s) <==> (s.loop.Looking? && s.heap == multiset{}) || (s.loop.Sleeping? && s.clock < s.loop.until)
  {
    match s.loop
    case Looking =>
      if s.heap != multiset{} {
        var task := SomeTop(s.heap);
        assert Enabled(s, if task.time <= s.clock then Pop(task) else Sleep(task));
      }
    case Sleeping(until, _) => assert Enabled(s, Wake) <==> until <= s.clock;
    case Popped(_, _) => assert Enabled(s, Submit);
    case Submitted(_, _) => assert Enabled(s, Push);
  }

  /** No task that was there when the loop fell asleep is overslept: a due task the loop does nothing
      about was scheduled since. */
  lemma OnlyNewcomersAreOverslept(clock: int, run: seq<Step>, e: Entry)
    requires RunOk(Initial(clock), run)
    requires var s := After(Initial(clock), run); e in s.heap && e.time <= s.clock && LoopRests(s)
    ensures var loop := After(Initial(clock), run).loop; loop.Sleeping? && loop.since <= e.id && e.time < loop.until
  {
    var s := After(Initial(clock), run);
    RunKeeps(Initial(clock), run);
    LoopRestsIff(s);
  }

  /** And that happens: the loop sleeps until 10, and a task scheduled then for 5 is due since 4. */
  lemma NewcomerIsOverslept() returns (run: seq<Step>, e: Entry)
    ensures RunOk(Initial(0), run)
    ensures var s := After(Initial(0), run); e in s.heap && e.time + 4 == s.clock && LoopRests(s)
  {
    var first := Entry(10, 0, 1, Given("first"));
    e := Entry(5, 0, 2, Given("second"));
    var s0 := Initial(0);
    var s1 := Apply(s0, ScheduleAt(10, "first"));
    assert s1.heap == multiset{first};
    var s2 := Apply(s1, Sleep(first));
    var s3 := Apply(s2, ScheduleAt(5, "second"));
    assert e in s3.heap;
    var s4 := Apply(s3, Wait(9));
    LoopRestsIff(s4);
    StepFirst(s3, Wait(9), []);
    StepFirst(s2, ScheduleAt(5, "second"), [Wait(9)] + []);
    StepFirst(s1, Sleep(first), [ScheduleAt(5, "second")] + ([Wait(9)] + []));
    run := [ScheduleAt(10, "first")] + ([Sleep(first)] + ([ScheduleAt(5, "second")] + ([Wait(9)] + [])));
    StepFirst(s0, ScheduleAt(10, "first"), [Sleep(first)] + ([ScheduleAt(5, "second")] + ([Wait(9)] + [])));
  }

  // ---- a due task is served

  /** The entries that may be taken before e. */
  ghost function Ahead(heap: multiset<Entry>, e: Entry): set<Entry> {
    set f | f in heap && f != e && f.time <= e.time
  }

  /** The loop holds a task that it may put back ahead of e. */
  predicate ReturnsAhead(loop: Loop, e: Entry) {
    (loop.Popped? || loop.Submitted?) && loop.task.interval > 0 && loop.now + loop.task.interval <= e.time
  }

  /** How many loop steps the round at hand still takes. */
  function RoundLeft(loop: Loop): nat {
    match loop
    case Looking => 0
    case Sleeping(_, _) => 1
    case Popped(_, _) => 2
    case Submitted(_, _) => 1
  }

  /** How many loop steps come at most before e is dispatched: three for each task that is ahead. */
  ghost function StepsBefore(s: State, e: Entry): nat {
    if s.loop.Popped? && s.loop.task == e then 1
    else 3 * |Ahead(s.heap, e)| + (if ReturnsAhead(s.loop, e) then 3 else 0) + RoundLeft(s.loop) + 2
  }

  ghost predicate Pending(s: State, e: Entry) {
    e in s.heap || (s.loop.Popped? && s.loop.task == e)
  }

  /** A scheduling call that gets ahead of e. */
  predicate GetsAhead(s: State, step: Step, e: Entry) {
    (step.ScheduleAt? && step.when <= e.time) || (step.SchedulePeriodic? && s.clock + step.interval <= e.time)
  }

  predicate Dispatches(s: State, step: Step, e: Entry) {
    step.Submit? && s.loop.Popped? && s.loop.task == e
  }

  ghost predicate OneStepLess(s: State, step: Step, e: Entry)
    requires Enabled(s, step)
  {
    && Pending(Apply(s, step), e)
    && StepsBefore(Apply(s, step), e) + (if LoopStep(step) then 1 else 0)
       <= StepsBefore(s, e) + if GetsAhead(s, step, e) then 3 else 0
  }

  lemma Smaller(a: set<Entry>, b: set<Entry>)
    requires a <= b
    ensures |a| <= |b|
  {
    assert b == a + (b - a);
  }

  lemma AheadAdded(heap: multiset<Entry>, added: Entry, e: Entry)
    ensures |Ahead(heap + multiset{added}, e)| <= |Ahead(heap, e)| + if added.time <= e.time then 1 else 0
  {
    if added.time <= e.time {
      Smaller(Ahead(heap + multiset{added}, e), Ahead(heap, e) + {added});
    } else {
      Smaller(Ahead(heap + multiset{added}, e), Ahead(heap, e));
    }
  }

  lemma FiledServes(s: State, time: int, interval: int, prefix: string, name: string, e: Entry)
    requires Pending(s, e)
    ensures var s' := Filed(s, time, interval, prefix, name);
            Pending(s', e) && StepsBefore(s', e) <= StepsBefore(s, e) + if time <= e.time then 3 else 0
  {
    hide Ahead;
    AheadAdded(s.heap, Entry(time, interval, TaskIdFor(s.nextId, name), NameFor(s.nextId, prefix, name)), e);
  }

  lemma CancelServes(s: State, id: Id, e: Entry)
    requires Inv(s) && Pending(s, e) && id != e.id
    ensures OneStepLess(s, Cancel(id), e)
  {
    var s' := Apply(s, Cancel(id));
    assert IsWithout(s.heap, id, s'.heap);
    assert forall f :: f in s'.heap ==> f in s.heap;
    Smaller(Ahead(s'.heap, e), Ahead(s.heap, e));
  }

  lemma PopServes(s: State, task: Entry, e: Entry)
    requires Inv(s) && Pending(s, e) && e.time <= s.clock && Enabled(s, Pop(task))
    ensures OneStepLess(s, Pop(task), e)
  {
    var s' := Apply(s, Pop(task));
    if task != e {
      assert task in Ahead(s.heap, e);
      assert s.heap[task] == 1;
      assert Ahead(s'.heap, e) == Ahead(s.heap, e) - {task};
    }
  }

  lemma PushServes(s: State, e: Entry)
    requires Pending(s, e) && s.loop.Submitted? && s.loop.task.interval > 0
    ensures OneStepLess(s, Push, e)
  {
    hide Ahead;
    AheadAdded(s.heap, s.loop.task.(time := s.loop.now + s.loop.task.interval), e);
  }

  /** Time, sleep and submitting leave the heap alone. */
  lemma HeapKeptServes(s: State, step: Step, e: Entry)
    requires Pending(s, e) && e.time <= s.clock && Enabled(s, step) && !Dispatches(s, step, e)
    requires step.Wait? || step.Sleep? || step.Reread? || step.Wake? || step.Submit?
    ensures OneStepLess(s, step, e)
  {
    hide Ahead;
  }

  lemma StepServes(s: State, step: Step, e: Entry)
    requires Inv(s) && Pending(s, e) && e.time <= s.clock && Enabled(s, step)
    requires step != Cancel(e.id) && !Dispatches(s, step, e)
    ensures OneStepLess(s, step, e)
  {
    hide Ahead, StepsBefore, Pending, IdsOnce, Planned, LogKeepsPlans;
    match step {
      case ScheduleAt(when, name) => FiledServes(s, when, 0, "ScheduledTask_", name, e);
      case SchedulePeriodic(interval, name) =>
        FiledServes(s, s.clock + interval, interval, "PeriodicTask_", name, e);
      case Cancel(id) => CancelServes(s, id, e);
      case Pop(task) => PopServes(s, task, e);
      case Push => PushServes(s, e);
      case _ => HeapKeptServes(s, step, e);
    }
  }

  lemma StepCounts(s: State, step: Step, id: Id)
    requires Enabled(s, step)
    ensures Count(Apply(s, step).log, id) == Count(s.log, id) + if step.Submit? && s.loop.task.id == id then 1 else 0
    ensures Apply(s, step).clock >= s.clock
  {
    if step.Submit? {
      CountSnoc(s.log, s.Dispatched(), id);
    }
  }

  lemma {:induction false} CountsGrow(s: State, run: seq<Step>, id: Id)
    requires RunOk(s, run)
    ensures Count(After(s, run).log, id) >= Count(s.log, id)
    decreases |run|
  {
    if run != [] {
      StepCounts(s, run[0], id);
      CountsGrow(Apply(s, run[0]), run[1..], id);
    }
  }

  function LoopSteps(run: seq<Step>): nat {
    if run == [] then 0 else (if LoopStep(run[0]) then 1 else 0) + LoopSteps(run[1..])
  }

  /** How many scheduling calls of the run get ahead of e. */
  ghost function EarlierCalls(s: State, run: seq<Step>, e: Entry): nat
    requires RunOk(s, run)
    decreases |run|
  {
    if run == [] then 0
    else (if GetsAhead(s, run[0], e) then 1 else 0) + EarlierCalls(Apply(s, run[0]), run[1..], e)
  }

  lemma {:induction false} Served(s: State, run: seq<Step>, e: Entry)
    requires Inv(s) && Pending(s, e) && e.time <= s.clock && RunOk(s, run) && Cancel(e.id) !in run
    ensures var s' := After(s, run);
            || Count(s'.log, e.id) > Count(s.log, e.id)
            || (&& Pending(s', e)
                && LoopSteps(run) + StepsBefore(s', e) <= StepsBefore(s, e) + 3 * EarlierCalls(s, run, e))
    decreases |run|
  {
    hide Inv, Pending, StepsBefore, Apply, Enabled, GetsAhead, LoopStep;
    if run != [] {
      var s1 := Apply(s, run[0]);
      StepCounts(s, run[0], e.id);
      if Dispatches(s, run[0], e) {
        CountsGrow(s1, run[1..], e.id);
      } else {
        StepServes(s, run[0], e);
        StepKeeps(s, run[0]);
        Served(s1, run[1..], e);
      }
    }
  }

  /** A due task that nobody cancels is dispatched once the loop has taken enough steps: three for each
      task due no later, for each call that schedules another such task, and for one that the loop may
      put back ahead of it, and as many as the round at hand and its own dispatch take. */
  lemma DueTaskIsServed(s: State, run: seq<Step>, e: Entry)
    requires Inv(s) && e in s.heap && e.time <= s.clock && RunOk(s, run) && Cancel(e.id) !in run
    requires LoopSteps(run) >= 3 * (|Ahead(s.heap, e)| + EarlierCalls(s, run, e)) + 7
    ensures Count(After(s, run).log, e.id) > Count(s.log, e.id)
  {
    Served(s, run, e);
  }
}
