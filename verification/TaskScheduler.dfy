/** include/task_engine/task_scheduler.hpp: client calls and loop steps, interleaved in any order.
    The loop lets go of the mutex between taking a due task, submitting it and putting a periodic
    task back, so these are three steps; it also lets go of it while it sleeps. `wait_until` is given
    a reference to the top's time, so a notification may make it read that time again. */
module TimedScheduling {

  type Id = nat

  datatype Name = Given(text: string) | Numbered(prefix: string, number: nat)

  datatype Entry = Entry(time: int, interval: int, id: Id, name: Name)

  /** What was asked for: when the first dispatch is due and how far apart the others are. */
  datatype Plan = Plan(first: int, interval: int)

  /** A submission to the executor at time `at`: when the task was due and when the loop popped it. */
  datatype Dispatch = Dispatch(id: Id, at: int, due: int, popped: int)

  /** Where the loop thread is: it looks at the heap, sleeps until the time read when the next id was
      `since`, or has a copy of a task and the clock reading it popped it at. */
  datatype Loop = Looking | Sleeping(until: int, since: Id)
                | Popped(task: Entry, now: int) | Submitted(task: Entry, now: int) {
    predicate Holds(id: Id) { (Popped? || Submitted?) && task.id == id }
  }

  /** The heap as the bag of its entries, with the plans made and the submissions done so far. */
  datatype State = State(heap: multiset<Entry>, nextId: Id, loop: Loop, clock: int, plans: map<Id, Plan>,
                         log: seq<Dispatch>)
  {
    function Dispatched(): Dispatch
      requires loop.Popped?
    {
      Dispatch(loop.task.id, clock, loop.task.time, loop.now)
    }
  }

  datatype Step =
    | Wait(until: int)
    | ScheduleAt(when: int, name: string)
    | SchedulePeriodic(interval: int, name: string)
    | Cancel(id: Id)
    | Sleep(task: Entry)
    | Reread(task: Entry)
    | Wake
    | Pop(task: Entry)
    | Submit
    | Push

  function Initial(clock: int): State {
    State(multiset{}, 1, Looking, clock, map[], [])
  }

  /** Any earliest entry can be the top of the heap. */
  ghost predicate IsTop(heap: multiset<Entry>, task: Entry) {
    task in heap && forall e :: e in heap ==> task.time <= e.time
  }

  ghost predicate Enabled(s: State, step: Step) {
    match step
    case Wait(until) => s.clock <= until
    case Sleep(task) => s.loop.Looking? && IsTop(s.heap, task) && s.clock < task.time
    case Reread(task) => s.loop.Sleeping? && IsTop(s.heap, task)
    case Wake => s.loop.Sleeping? && s.loop.until <= s.clock
    case Pop(task) => s.loop.Looking? && IsTop(s.heap, task) && task.time <= s.clock
    case Submit => s.loop.Popped?
    case Push => s.loop.Submitted?
    case _ => true
  }

  /** An empty name takes an id of its own. */
  function TaskIdFor(nextId: Id, name: string): Id {
    if name == "" then nextId + 1 else nextId
  }

  function NameFor(nextId: Id, prefix: string, name: string): Name {
    if name == "" then Numbered(prefix, nextId) else Given(name)
  }

  function Filed(s: State, time: int, interval: int, prefix: string, name: string): State {
    var id := TaskIdFor(s.nextId, name);
    s.(heap := s.heap + multiset{Entry(time, interval, id, NameFor(s.nextId, prefix, name))},
       nextId := id + 1,
       plans := s.plans[id := Plan(time, interval)])
  }

  /** Heap without the entries of one id. */
  ghost predicate IsWithout(heap: multiset<Entry>, id: Id, rest: multiset<Entry>) {
    forall e :: rest[e] == if e.id == id then 0 else heap[e]
  }

  ghost function WithoutId(heap: multiset<Entry>, id: Id): (rest: multiset<Entry>)
    ensures IsWithout(heap, id, rest)
    decreases |heap|
  {
    if h :| h in heap && h.id == id then WithoutId(heap[h := 0], id) else heap
  }

  ghost function Apply(s: State, step: Step): State
    requires Enabled(s, step)
  {
    match step
    case Wait(until) => s.(clock := until)
    case ScheduleAt(when, name) => Filed(s, when, 0, "ScheduledTask_", name)
    case SchedulePeriodic(interval, name) => Filed(s, s.clock + interval, interval, "PeriodicTask_", name)
    case Cancel(id) => s.(heap := WithoutId(s.heap, id))
    case Sleep(task) => s.(loop := Sleeping(task.time, s.nextId))
    case Reread(task) => s.(loop := Sleeping(task.time, s.nextId))
    case Wake => s.(loop := Looking)
    case Pop(task) => s.(heap := s.heap - multiset{task}, loop := Popped(task, s.clock))
    case Submit =>
      s.(log := s.log + [s.Dispatched()],
         loop := if s.loop.task.interval > 0 then Submitted(s.loop.task, s.loop.now) else Looking)
    case Push =>
      s.(heap := s.heap + multiset{s.loop.task.(time := s.loop.now + s.loop.task.interval)}, loop := Looking)
  }

  /** What `cancel` answers. */
  ghost predicate Found(s: State, id: Id) {
    exists e :: e in s.heap && e.id == id
  }

  function Count(log: seq<Dispatch>, id: Id): nat {
    if log == [] then 0 else Count(log[..|log| - 1], id) + if log[|log| - 1].id == id then 1 else 0
  }

  lemma CountSnoc(log: seq<Dispatch>, d: Dispatch, id: Id)
    ensures Count(log + [d], id) == Count(log, id) + if d.id == id then 1 else 0
  {
    assert (log + [d])[..|log|] == log;
  }

  lemma {:induction false} CountAbsent(log: seq<Dispatch>, id: Id)
    requires forall i :: 0 <= i < |log| ==> log[i].id != id
    ensures Count(log, id) == 0
  {
    if log != [] {
      CountAbsent(log[..|log| - 1], id);
    }
  }

  /** When dispatch number k of a plan is due, counting from 0. */
  function Due(plan: Plan, k: nat): int {
    plan.first + k * plan.interval
  }

  lemma DueNext(plan: Plan, k: nat)
    ensures Due(plan, k + 1) == Due(plan, k) + plan.interval
    ensures Due(plan, 0) == plan.first
  {
    assert (k + 1) * plan.interval == k * plan.interval + plan.interval;
  }

  /** Read off the log alone: when a task is due next, which is one interval after it was last popped. */
  function NextDue(plan: Plan, log: seq<Dispatch>, id: Id): int {
    if log == [] then plan.first
    else if log[|log| - 1].id == id then log[|log| - 1].popped + plan.interval
    else NextDue(plan, log[..|log| - 1], id)
  }

  /** Read off the log alone: by how much in all the loop came late to a task. */
  function Delays(log: seq<Dispatch>, id: Id): int {
    if log == [] then 0
    else
      var last := log[|log| - 1];
      Delays(log[..|log| - 1], id) + if last.id == id then last.popped - last.due else 0
  }

  lemma NextDueSnoc(plan: Plan, log: seq<Dispatch>, d: Dispatch, id: Id)
    ensures NextDue(plan, log + [d], id) == if d.id == id then d.popped + plan.interval else NextDue(plan, log, id)
  {
    assert (log + [d])[..|log|] == log;
  }

  lemma {:induction false} NextDueAbsent(plan: Plan, log: seq<Dispatch>, id: Id)
    requires forall i :: 0 <= i < |log| ==> log[i].id != id
    ensures NextDue(plan, log, id) == plan.first
  {
    if log != [] {
      NextDueAbsent(plan, log[..|log| - 1], id);
    }
  }

  /** Dispatch number i was due exactly when the plan says, and popped and submitted after that. */
  ghost predicate ExactAt(plans: map<Id, Plan>, log: seq<Dispatch>, i: nat)
    requires i < |log|
  {
    && log[i].id in plans && log[i].due == NextDue(plans[log[i].id], log[..i], log[i].id)
    && log[i].due <= log[i].popped <= log[i].at
  }

  ghost predicate LogIsExact(plans: map<Id, Plan>, log: seq<Dispatch>) {
    forall i {:trigger ExactAt(plans, log, i)} :: 0 <= i < |log| ==> ExactAt(plans, log, i)
  }

  /** The dispatch keeps its plan: never early, and one only for a task that does not repeat. */
  ghost predicate OnTime(plan: Plan, k: nat, at: int) {
    if plan.interval > 0 then at >= Due(plan, k) else k == 0 && at >= plan.first
  }

  ghost predicate LogKeepsPlans(plans: map<Id, Plan>, log: seq<Dispatch>) {
    forall i :: 0 <= i < |log| ==>
      log[i].id in plans && OnTime(plans[log[i].id], Count(log[..i], log[i].id), log[i].at)
  }

  /** An entry that is still to be dispatched. */
  ghost predicate Planned(s: State, e: Entry) {
    && e.id < s.nextId && e.id in s.plans && s.plans[e.id].interval == e.interval
    && OnTime(s.plans[e.id], Count(s.log, e.id), e.time)
    && e.time == NextDue(s.plans[e.id], s.log, e.id)
  }

  ghost predicate NotInHeap(heap: multiset<Entry>, id: Id) {
    forall e :: e in heap ==> e.id != id
  }

  ghost predicate IdsOnce(heap: multiset<Entry>) {
    && (forall e :: e in heap ==> heap[e] == 1)
    && (forall e, f :: e in heap && f in heap && e.id == f.id ==> e == f)
  }

  ghost predicate LoopOk(s: State) {
    match s.loop
    case Looking => true
    case Sleeping(until, since) => since <= s.nextId && forall e :: e in s.heap && e.id < since ==> until <= e.time
    case Popped(task, now) => Planned(s, task) && task.time <= now <= s.clock && NotInHeap(s.heap, task.id)
    case Submitted(task, now) =>
      && task.id < s.nextId && task.id in s.plans && s.plans[task.id].interval == task.interval > 0
      && now <= s.clock && now + task.interval >= Due(s.plans[task.id], Count(s.log, task.id))
      && now + task.interval == NextDue(s.plans[task.id], s.log, task.id)
      && NotInHeap(s.heap, task.id)
  }

  ghost predicate Inv(s: State) {
    && IdsOnce(s.heap)
    && (forall e :: e in s.heap ==> Planned(s, e))
    && LoopOk(s)
    && (forall id :: id in s.plans ==> id < s.nextId)
    && LogKeepsPlans(s.plans, s.log) && LogIsExact(s.plans, s.log)
  }

  lemma FiledLog(s: State, id: Id, plan: Plan)
    requires LogIsExact(s.plans, s.log) && id !in s.plans
    ensures LogIsExact(s.plans[id := plan], s.log)
  {
    var plans := s.plans[id := plan];
    forall i {:trigger ExactAt(plans, s.log, i)} | 0 <= i < |s.log|
      ensures ExactAt(plans, s.log, i)
    {
      assert ExactAt(s.plans, s.log, i);
    }
  }

  lemma FiledKeeps(s: State, time: int, interval: int, prefix: string, name: string)
    requires Inv(s)
    ensures Inv(Filed(s, time, interval, prefix, name))
  {
    var s' := Filed(s, time, interval, prefix, name);
    var id := TaskIdFor(s.nextId, name);
    CountAbsent(s.log, id);
    NextDueAbsent(s'.plans[id], s.log, id);
    DueNext(s'.plans[id], 0);
    FiledLog(s, id, Plan(time, interval));
    forall e | e in s'.heap
      ensures Planned(s', e) && s'.heap[e] == 1
    {
      if e in s.heap {
        assert Planned(s, e) && s.heap[e] == 1;
      }
    }
    assert LoopOk(s');
  }

  lemma LogGrows(s: State, d: Dispatch)
    requires LogKeepsPlans(s.plans, s.log) && LogIsExact(s.plans, s.log)
    requires d.id in s.plans && OnTime(s.plans[d.id], Count(s.log, d.id), d.at)
    requires d.due == NextDue(s.plans[d.id], s.log, d.id) && d.due <= d.popped <= d.at
    ensures LogKeepsPlans(s.plans, s.log + [d]) && LogIsExact(s.plans, s.log + [d])
  {
    var log := s.log + [d];
    forall i | 0 <= i < |log|
      ensures ExactAt(s.plans, log, i)
    {
      assert log[..i] == s.log[..i];
      if i < |s.log| {
        assert ExactAt(s.plans, s.log, i);
      } else {
        assert s.log[..i] == s.log;
      }
    }
    forall i | 0 <= i < |log|
      ensures log[i].id in s.plans && OnTime(s.plans[log[i].id], Count(log[..i], log[i].id), log[i].at)
    {
      assert log[..i] == s.log[..i];
      assert i == |s.log| ==> s.log[..i] == s.log;
    }
  }

  lemma SubmitKeeps(s: State)
    requires Inv(s) && s.loop.Popped?
    ensures Inv(Apply(s, Submit))
  {
    var s', task := Apply(s, Submit), s.loop.task;
    LogGrows(s, s.Dispatched());
    SubmitLoop(s);
    hide LoopOk, LogKeepsPlans, LogIsExact;
    forall e | e in s'.heap
      ensures Planned(s', e)
    {
      assert Planned(s, e);
      CountSnoc(s.log, s.Dispatched(), e.id);
      NextDueSnoc(s.plans[e.id], s.log, s.Dispatched(), e.id);
    }
  }

  lemma SubmitLoop(s: State)
    requires LoopOk(s) && s.loop.Popped?
    ensures LoopOk(Apply(s, Submit))
  {
    var task := s.loop.task;
    CountSnoc(s.log, s.Dispatched(), task.id);
    NextDueSnoc(s.plans[task.id], s.log, s.Dispatched(), task.id);
    DueNext(s.plans[task.id], Count(s.log, task.id));
  }

  lemma CancelKeeps(s: State, id: Id)
    requires Inv(s)
    ensures Inv(Apply(s, Cancel(id)))
  {
    var s' := Apply(s, Cancel(id));
    assert IsWithout(s.heap, id, s'.heap);
    forall e | e in s'.heap
      ensures e in s.heap && s'.heap[e] == s.heap[e] && Planned(s', e)
    {
      assert Planned(s, e);
    }
    assert LoopOk(s');
  }

  lemma PopKeeps(s: State, task: Entry)
    requires Inv(s) && Enabled(s, Pop(task))
    ensures Inv(Apply(s, Pop(task)))
  {
    var s' := Apply(s, Pop(task));
    assert Planned(s, task) && Planned(s', task);
    forall e | e in s'.heap
      ensures e in s.heap && s'.heap[e] == s.heap[e] && Planned(s', e) && e.id != task.id
    {
      assert Planned(s, e);
    }
  }

  lemma PushKeeps(s: State)
    requires Inv(s) && s.loop.Submitted?
    ensures Inv(Apply(s, Push))
  {
    var s' := Apply(s, Push);
    var again := s.loop.task.(time := s.loop.now + s.loop.task.interval);
    assert Planned(s', again);
    forall e | e in s'.heap
      ensures Planned(s', e) && s'.heap[e] == 1
    {
      if e != again {
        assert Planned(s, e);
      }
    }
  }

  lemma WaitKeeps(s: State, until: int)
    requires Inv(s) && s.clock <= until
    ensures Inv(Apply(s, Wait(until)))
  {
    var s' := Apply(s, Wait(until));
    forall e | e in s'.heap
      ensures Planned(s', e)
    {
      assert Planned(s, e);
    }
    assert LoopOk(s');
  }

  lemma LoopKeeps(s: State, step: Step)
    requires Inv(s) && Enabled(s, step) && (step.Sleep? || step.Reread? || step.Wake?)
    ensures Inv(Apply(s, step))
  {
    var s' := Apply(s, step);
    forall e | e in s'.heap
      ensures Planned(s', e)
    {
      assert Planned(s, e);
    }
  }

  lemma StepKeeps(s: State, step: Step)
    requires Inv(s) && Enabled(s, step)
    ensures Inv(Apply(s, step))
  {
    hide Inv;
    match step {
      case ScheduleAt(when, name) => FiledKeeps(s, when, 0, "ScheduledTask_", name);
      case SchedulePeriodic(interval, name) => FiledKeeps(s, s.clock + interval, interval, "PeriodicTask_", name);
      case Submit => SubmitKeeps(s);
      case Cancel(id) => CancelKeeps(s, id);
      case Sleep(task) => LoopKeeps(s, step);
      case Reread(task) => LoopKeeps(s, step);
      case Wake => LoopKeeps(s, step);
      case Pop(task) => PopKeeps(s, task);
      case Push => PushKeeps(s);
      case Wait(until) => WaitKeeps(s, until);
    }
  }

  // ---- runs

  ghost predicate RunOk(s: State, run: seq<Step>)
    decreases |run|
  {
    run == [] || (Enabled(s, run[0]) && RunOk(Apply(s, run[0]), run[1..]))
  }

  ghost function After(s: State, run: seq<Step>): State
    requires RunOk(s, run)
    decreases |run|
  {
    if run == [] then s else After(Apply(s, run[0]), run[1..])
  }

  lemma {:induction false} RunKeeps(s: State, run: seq<Step>)
    requires Inv(s) && RunOk(s, run)
    ensures Inv(After(s, run))
    decreases |run|
  {
    if run != [] {
      StepKeeps(s, run[0]);
      RunKeeps(Apply(s, run[0]), run[1..]);
    }
  }

  /** In every run and every interleaving: dispatch k of a periodic task comes no earlier than its
      first due time plus k intervals, a one-time task is dispatched at most once and never early,
      and no id is in the heap twice. */
  lemma SchedulesAreKept(clock: int, run: seq<Step>)
    requires RunOk(Initial(clock), run)
    ensures var s := After(Initial(clock), run);
            && LogKeepsPlans(s.plans, s.log) && IdsOnce(s.heap)
            && (s.loop.Popped? || s.loop.Submitted? ==> NotInHeap(s.heap, s.loop.task.id))
  {
    RunKeeps(Initial(clock), run);
  }

  /** In every run a task in the heap is due at its plan's first time, or one interval after it was last
      popped, and so was every dispatch. */
  lemma DueTimesAreExact(clock: int, run: seq<Step>)
    requires RunOk(Initial(clock), run)
    ensures var s := After(Initial(clock), run);
            && LogIsExact(s.plans, s.log)
            && forall e :: e in s.heap ==> e.id in s.plans && e.interval == s.plans[e.id].interval
                                           && e.time == NextDue(s.plans[e.id], s.log, e.id)
  {
    RunKeeps(Initial(clock), run);
    var s := After(Initial(clock), run);
    forall e | e in s.heap
      ensures Planned(s, e)
    {
    }
  }

  lemma {:induction false} DriftAfter(plans: map<Id, Plan>, log: seq<Dispatch>, id: Id)
    requires LogIsExact(plans, log) && id in plans
    ensures NextDue(plans[id], log, id) == Due(plans[id], Count(log, id)) + Delays(log, id)
  {
    DueNext(plans[id], 0);
    if log != [] {
      var n := |log| - 1;
      LogPrefix(plans, log);
      DriftAfter(plans, log[..n], id);
      assert ExactAt(plans, log, n);
      DueNext(plans[id], Count(log[..n], id));
    }
  }

  lemma LogPrefix(plans: map<Id, Plan>, log: seq<Dispatch>)
    requires LogIsExact(plans, log) && log != []
    ensures LogIsExact(plans, log[..|log| - 1])
  {
    var front := log[..|log| - 1];
    forall i | 0 <= i < |front|
      ensures ExactAt(plans, front, i)
    {
      assert ExactAt(plans, log, i) && front[..i] == log[..i];
    }
  }

  /** How far a periodic task falls behind: dispatch k of a plan is due at its first time plus k
      intervals plus all the time by which the loop popped the dispatches before it too late. */
  lemma DriftIsTheDelays(clock: int, run: seq<Step>, i: nat)
    requires RunOk(Initial(clock), run) && i < |After(Initial(clock), run).log|
    ensures var s := After(Initial(clock), run);
            var id, before := s.log[i].id, s.log[..i];
            && id in s.plans && Delays(before, id) >= 0
            && s.log[i].due == s.plans[id].first + Count(before, id) * s.plans[id].interval + Delays(before, id)
  {
    DueTimesAreExact(clock, run);
    var s := After(Initial(clock), run);
    assert ExactAt(s.plans, s.log, i);
    LogPrefixes(s.plans, s.log, i);
    DriftAfter(s.plans, s.log[..i], s.log[i].id);
    DelaysAdd(s.plans, s.log[..i], s.log[i].id);
  }

  lemma {:induction false} LogPrefixes(plans: map<Id, Plan>, log: seq<Dispatch>, i: nat)
    requires LogIsExact(plans, log) && i <= |log|
    ensures LogIsExact(plans, log[..i])
    decreases |log| - i
  {
    if i < |log| {
      LogPrefixes(plans, log, i + 1);
      LogPrefix(plans, log[..i + 1]);
      assert log[..i + 1][..i] == log[..i];
    } else {
      assert log[..i] == log;
    }
  }

  lemma {:induction false} DelaysAdd(plans: map<Id, Plan>, log: seq<Dispatch>, id: Id)
    requires LogIsExact(plans, log)
    ensures Delays(log, id) >= 0
  {
    if log != [] {
      LogPrefix(plans, log);
      DelaysAdd(plans, log[..|log| - 1], id);
      assert ExactAt(plans, log, |log| - 1);
    }
  }

  lemma {:induction false} NoDelays(log: seq<Dispatch>, id: Id)
    requires forall j :: 0 <= j < |log| && log[j].id == id ==> log[j].popped == log[j].due
    ensures Delays(log, id) == 0
  {
    if log != [] {
      NoDelays(log[..|log| - 1], id);
    }
  }

  /** If the loop pops a task on time every time, dispatch k is popped at exactly its plan's first time
      plus k intervals. */
  lemma PunctualPopsKeepThePlan(clock: int, run: seq<Step>, i: nat)
    requires RunOk(Initial(clock), run) && i < |After(Initial(clock), run).log|
    requires var log := After(Initial(clock), run).log;
             forall j :: 0 <= j <= i && log[j].id == log[i].id ==> log[j].popped == log[j].due
    ensures var s := After(Initial(clock), run);
            var id := s.log[i].id;
            && id in s.plans
            && s.log[i].popped == s.plans[id].first + Count(s.log[..i], id) * s.plans[id].interval
  {
    var log := After(Initial(clock), run).log;
    DriftIsTheDelays(clock, run, i);
    NoDelays(log[..i], log[i].id);
  }

  lemma {:induction false} PlansStay(s: State, run: seq<Step>, id: Id)
    requires RunOk(s, run) && id in s.plans && id < s.nextId
    ensures id in After(s, run).plans && After(s, run).plans[id] == s.plans[id]
    decreases |run|
  {
    if run != [] {
      PlansStay(Apply(s, run[0]), run[1..], id);
    }
  }

  /** What the plan of a call is: the requested time, or the clock plus the interval. */
  lemma ScheduledMeans(s: State, step: Step, run: seq<Step>)
    requires Inv(s) && (step.ScheduleAt? || step.SchedulePeriodic?) && RunOk(Apply(s, step), run)
    ensures var id := TaskIdFor(s.nextId, step.name);
            && id !in s.plans && NotInHeap(s.heap, id) && !s.loop.Holds(id)
            && id in After(Apply(s, step), run).plans
            && After(Apply(s, step), run).plans[id]
               == if step.ScheduleAt? then Plan(step.when, 0) else Plan(s.clock + step.interval, step.interval)
  {
    var id := TaskIdFor(s.nextId, step.name);
    forall e | e in s.heap
      ensures e.id != id
    {
      assert Planned(s, e);
    }
    PlansStay(Apply(s, step), run, id);
  }

  // ---- cancel

  /** Handed out, and neither in the heap nor in the loop's hands. */
  ghost predicate Gone(s: State, id: Id) {
    id < s.nextId && NotInHeap(s.heap, id) && !s.loop.Holds(id)
  }

  lemma GoneStays(s: State, step: Step, id: Id)
    requires Gone(s, id) && Enabled(s, step)
    ensures Gone(Apply(s, step), id)
    ensures Count(Apply(s, step).log, id) == Count(s.log, id)
  {
    match step {
      case Submit => CountSnoc(s.log, s.Dispatched(), id);
      case Cancel(other) =>
        var rest := WithoutId(s.heap, other);
        assert IsWithout(s.heap, other, rest);
        assert forall e :: e in rest ==> e in s.heap;
      case _ =>
    }
  }

  lemma {:induction false} GoneForGood(s: State, run: seq<Step>, id: Id)
    requires Gone(s, id) && RunOk(s, run)
    ensures Count(After(s, run).log, id) == Count(s.log, id)
    decreases |run|
  {
    if run != [] {
      GoneStays(s, run[0], id);
      GoneForGood(Apply(s, run[0]), run[1..], id);
    }
  }

  lemma CancelledIsGone(s: State, id: Id)
    requires Inv(s) && id < s.nextId
    ensures Gone(Apply(s, Cancel(id)), id) <==> !s.loop.Holds(id)
    ensures Found(s, id) ==> !s.loop.Holds(id)
  {
    assert IsWithout(s.heap, id, WithoutId(s.heap, id));
  }

  /** After `cancel(id)` has answered true the id is never dispatched again. */
  lemma CancelTrueIsFinal(s: State, id: Id, run: seq<Step>)
    requires Inv(s) && Found(s, id)
    requires RunOk(Apply(s, Cancel(id)), run)
    ensures Count(After(Apply(s, Cancel(id)), run).log, id) == Count(s.log, id)
  {
    var e :| e in s.heap && e.id == id;
    assert Planned(s, e);
    CancelledIsGone(s, id);
    GoneForGood(Apply(s, Cancel(id)), run, id);
  }

  ghost predicate NeverAgain(s: State, id: Id) {
    forall run :: RunOk(s, run) ==> Count(After(s, run).log, id) == Count(s.log, id)
  }

  /** Whatever `cancel` answers, the cancelled id is final exactly when the loop does not hold the
      task at that moment: the heap is all that `cancel` looks at. */
  lemma CancelIsFinalIff(s: State, id: Id)
    requires Inv(s) && id < s.nextId
    ensures NeverAgain(Apply(s, Cancel(id)), id) <==> !s.loop.Holds(id)
  {
    var s' := Apply(s, Cancel(id));
    CancelledIsGone(s, id);
    if s.loop.Holds(id) {
      StepKeeps(s, Cancel(id));
      var run := DispatchesAgain(s', id);
    } else {
      forall run | RunOk(s', run)
        ensures Count(After(s', run).log, id) == Count(s'.log, id)
      {
        GoneForGood(s', run, id);
      }
    }
  }

  /** A held task can still be dispatched: cancel every other task, put the held one back if it
      was just submitted, wait, and let the loop take it. */
  lemma {:induction false} DispatchesAgain(s: State, id: Id) returns (run: seq<Step>)
    requires Inv(s) && s.loop.Holds(id)
    ensures RunOk(s, run) && Count(After(s, run).log, id) == Count(s.log, id) + 1
    decreases |s.heap|
  {
    if s.loop.Popped? {
      CountSnoc(s.log, s.Dispatched(), id);
      run := [Submit] + [];
      StepFirst(s, Submit, []);
    } else if e :| e in s.heap {
      var s1 := Apply(s, Cancel(e.id));
      StepKeeps(s, Cancel(e.id));
      FewerLeft(s.heap, e, s1.heap);
      var rest := DispatchesAgain(s1, id);
      run := [Cancel(e.id)] + rest;
      StepFirst(s, Cancel(e.id), rest);
    } else {
      run := PushAndDispatch(s, id);
    }
  }

  lemma StepFirst(s: State, step: Step, rest: seq<Step>)
    requires Enabled(s, step) && RunOk(Apply(s, step), rest)
    ensures RunOk(s, [step] + rest) && After(s, [step] + rest) == After(Apply(s, step), rest)
  {
    assert ([step] + rest)[1..] == rest;
  }

  lemma FewerLeft(heap: multiset<Entry>, e: Entry, rest: multiset<Entry>)
    requires e in heap && IsWithout(heap, e.id, rest)
    ensures |rest| < |heap|
  {
    assert rest <= heap - multiset{e};
    var gap := (heap - multiset{e}) - rest;
    assert heap == (rest + gap) + multiset{e};
  }

  lemma PushAndDispatch(s: State, id: Id) returns (run: seq<Step>)
    requires s.loop.Submitted? && s.loop.task.id == id && s.heap == multiset{}
    ensures RunOk(s, run) && Count(After(s, run).log, id) == Count(s.log, id) + 1
  {
    var again := s.loop.task.(time := s.loop.now + s.loop.task.interval);
    var later := if s.clock <= again.time then again.time else s.clock;
    var s1 := Apply(s, Push);
    assert s1.heap == multiset{again};
    var s2 := Apply(s1, Wait(later));
    var s3 := Apply(s2, Pop(again));
    CountSnoc(s3.log, s3.Dispatched(), id);
    var r4 := [Submit] + [];
    StepFirst(s3, Submit, []);
    StepFirst(s2, Pop(again), r4);
    StepFirst(s1, Wait(later), [Pop(again)] + r4);
    StepFirst(s, Push, [Wait(later)] + ([Pop(again)] + r4));
    run := [Push] + ([Wait(later)] + ([Pop(again)] + r4));
  }

  /** It happens: a client cancels a periodic task between the loop's pop and its push, is told that
      there is no such task, and the task is dispatched again later. */
  lemma CancelFalseIsNotFinal() returns (run: seq<Step>, id: Id)
    ensures RunOk(Initial(0), run)
    ensures var s := After(Initial(0), run);
            Inv(s) && id in s.plans && !Found(s, id) && !NeverAgain(Apply(s, Cancel(id)), id)
  {
    id := 1;
    var task := Entry(5, 5, 1, Given("job"));
    var s0 := Initial(0);
    var s1 := Apply(s0, SchedulePeriodic(5, "job"));
    assert s1.heap == multiset{task};
    var s2 := Apply(s1, Wait(5));
    var s3 := Apply(s2, Pop(task));
    StepFirst(s2, Pop(task), []);
    StepFirst(s1, Wait(5), [Pop(task)] + []);
    StepFirst(s0, SchedulePeriodic(5, "job"), [Wait(5)] + ([Pop(task)] + []));
    run := [SchedulePeriodic(5, "job")] + ([Wait(5)] + ([Pop(task)] + []));
    RunKeeps(s0, run);
    CancelIsFinalIff(s3, id);
  }
}

/** The scheduler object. Its loop thread's local variables are the field `loop`. */
module TaskSchedulers {
  import opened TimedScheduling

  class TaskScheduler {
    var heap: multiset<Entry>
    var nextId: Id
    var loop: Loop
    ghost var plans: map<Id, Plan>
    ghost var log: seq<Dispatch>

    /** The state when the clock reads `now`. */
    ghost function View(now: int): State
      reads this
    {
      State(heap, nextId, loop, now, plans, log)
    }

    constructor (ghost now: int)
      ensures View(now) == Initial(now)
    {
      heap, nextId, loop := multiset{}, 1, Looking;
      plans, log := map[], [];
    }

    method ScheduleAt(when: int, name: string, ghost now: int) returns (id: Id)
      modifies this
      ensures View(now) == Apply(old(View(now)), Step.ScheduleAt(when, name))
      ensures id == TaskIdFor(old(nextId), name)
      ensures id == old(nextId) + (if name == "" then 1 else 0) && nextId == id + 1
      ensures var title := if name == "" then Numbered("ScheduledTask_", old(nextId)) else Given(name);
              heap == old(heap) + multiset{Entry(when, 0, id, title)}
    {
      var title := Given(name);
      if name == "" {
        title := Numbered("ScheduledTask_", nextId);
        nextId := nextId + 1;
      }
      id := nextId;
      nextId := nextId + 1;
      heap := heap + multiset{Entry(when, 0, id, title)};
      plans := plans[id := Plan(when, 0)];
    }

    method SchedulePeriodic(interval: int, name: string, now: int) returns (id: Id)
      modifies this
      ensures View(now) == Apply(old(View(now)), Step.SchedulePeriodic(interval, name))
      ensures id == TaskIdFor(old(nextId), name)
      ensures id == old(nextId) + (if name == "" then 1 else 0) && nextId == id + 1
      ensures var title := if name == "" then Numbered("PeriodicTask_", old(nextId)) else Given(name);
              heap == old(heap) + multiset{Entry(now + interval, interval, id, title)}
    {
      var title := Given(name);
      if name == "" {
        title := Numbered("PeriodicTask_", nextId);
        nextId := nextId + 1;
      }
      var time := now + interval;
      id := nextId;
      nextId := nextId + 1;
      assert title == NameFor(old(nextId), "PeriodicTask_", name);
      heap := heap + multiset{Entry(time, interval, id, title)};
      plans := plans[id := Plan(time, interval)];
      assert View(now) == Filed(old(View(now)), time, interval, "PeriodicTask_", name);
    }

    /** Rebuilds the heap from its entries, one by one, without the cancelled id. */
    method Cancel(id: Id, ghost now: int) returns (found: bool)
      modifies this`heap
      ensures found == Found(old(View(now)), id)
      ensures View(now) == Apply(old(View(now)), Step.Cancel(id))
    {
      var temp: multiset<Entry> := multiset{};
      ghost var before, done: multiset<Entry> := heap, multiset{};
      found := false;
      while heap != multiset{}
        invariant heap + done == before
        invariant IsWithout(done, id, temp)
        invariant found <==> Seen(done, id)
        decreases |heap|
      {
        var task := Top(heap);
        OneTaken(heap, done, task);
        SeenMore(done, task, id, temp);
        heap, done := heap - multiset{task}, done + multiset{task};
        if task.id == id {
          found := true;
        } else {
          temp := temp + multiset{task};
        }
      }
      assert done == before;
      heap := temp;
      SameRest(before, id, temp, WithoutId(before, id));
    }

    ghost predicate Seen(heap: multiset<Entry>, id: Id) {
      exists e :: e in heap && e.id == id
    }

    lemma OneTaken(heap: multiset<Entry>, done: multiset<Entry>, task: Entry)
      requires task in heap
      ensures heap - multiset{task} + (done + multiset{task}) == heap + done
      ensures |heap - multiset{task}| < |heap|
    {
    }

    lemma SeenMore(done: multiset<Entry>, task: Entry, id: Id, temp: multiset<Entry>)
      requires IsWithout(done, id, temp)
      ensures Seen(done + multiset{task}, id) <==> Seen(done, id) || task.id == id
      ensures IsWithout(done + multiset{task}, id, if task.id == id then temp else temp + multiset{task})
    {
      if task.id == id {
        assert task in done + multiset{task};
      }
      if e :| e in done && e.id == id {
        assert e in done + multiset{task};
      }
    }

    lemma SameRest(before: multiset<Entry>, id: Id, a: multiset<Entry>, b: multiset<Entry>)
      requires IsWithout(before, id, a) && IsWithout(before, id, b)
      ensures a == b
    {
    }

    /** The first part of a round: take the top task if it is due, or sleep until it is. */
    method PopDue(now: int)
      requires loop.Looking?
      modifies this`heap, this`loop
      ensures if old(heap) == multiset{} then View(now) == old(View(now))
              else exists next: Entry ::
                     var step := if next.time <= now then Pop(next) else Step.Sleep(next);
                     Enabled(old(View(now)), step) && View(now) == Apply(old(View(now)), step)
      ensures loop.Popped? <==> exists e :: e in old(heap) && e.time <= now
      ensures loop.Popped? ==> loop.now == now && forall e :: e in old(heap) ==> loop.task.time <= e.time
      ensures loop.Sleeping? ==>
                (exists e :: e in heap && e.time == loop.until) && forall e :: e in heap ==> loop.until <= e.time
    {
      if heap == multiset{} {
        return;
      }
      var next := Top(heap);
      ghost var step := if next.time <= now then Pop(next) else Step.Sleep(next);
      assert Enabled(View(now), step);
      if next.time <= now {
        heap := heap - multiset{next};
        loop := Popped(next, now);
      } else {
        loop := Sleeping(next.time, nextId);
      }
    }

    /** The wait runs out. */
    method WakeUp(now: int)
      requires loop.Sleeping?
      modifies this`loop
      ensures if old(loop).until <= now then View(now) == Apply(old(View(now)), Step.Wake)
              else View(now) == old(View(now))
    {
      if loop.until <= now {
        loop := Looking;
      }
    }

    /** The second part, without the mutex: hand the task to the executor. */
    method SubmitTask(ghost now: int)
      requires loop.Popped?
      modifies this`loop, this`log
      ensures View(now) == Apply(old(View(now)), Submit)
      ensures log == old(log) + [Dispatch(old(loop).task.id, now, old(loop).task.time, old(loop).now)]
      ensures loop == if old(loop).task.interval > 0 then Submitted(old(loop).task, old(loop).now) else Looking
    {
      log := log + [Dispatch(loop.task.id, now, loop.task.time, loop.now)];
      loop := if loop.task.interval > 0 then Submitted(loop.task, loop.now) else Looking;
    }

    /** The third part: put a periodic task back. */
    method PushBack(ghost now: int)
      requires loop.Submitted?
      modifies this`heap, this`loop
      ensures View(now) == Apply(old(View(now)), Push)
      ensures var task, popped := old(loop).task, old(loop).now;
              heap == old(heap) + multiset{Entry(popped + task.interval, task.interval, task.id, task.name)}
    {
      heap := heap + multiset{loop.task.(time := loop.now + loop.task.interval)};
      loop := Looking;
    }
  }

  /** The top of a priority queue: an earliest entry, whichever it is among equals. */
  method Top(heap: multiset<Entry>) returns (task: Entry)
    requires heap != multiset{}
    ensures IsTop(heap, task)
  {
    task :| task in heap;
    var rest := heap - multiset{task};
    while rest != multiset{}
      invariant rest <= heap && task in heap
      invariant forall e :: e in heap ==> e in rest || task.time <= e.time
      decreases |rest|
    {
      var e :| e in rest;
      if e.time < task.time {
        task := e;
      }
      rest := rest - multiset{e};
    }
  }
}
