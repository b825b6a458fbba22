/** When the ring buffer of include/task_engine/task_queue.hpp stops handing out tasks: exactly which
    states at rest are stuck, and exactly which threads can drive it into one. */
module QueueStranding {
  import opened BitMask
  import opened Options
  import opened QueueMpmc

  ghost predicate Quiet<T>(s: State<T>) {
    forall id {:trigger s.threads[id]} :: id in s.threads ==> s.threads[id] == Idle
  }

  /** head and tail disagree with the slot at head: the queue calls itself empty although the slot
      is taken, or not empty although it is free. */
  ghost predicate Stuck<T>(s: State<T>)
    requires s.head < |s.slots|
  {
    s.head == s.tail <==> s.slots[s.head].Some?
  }

  // ---- stuck for good

  /** head has caught up with tail although the slot there is taken: `empty` says yes, every
      `try_dequeue` returns null and every `try_enqueue` fails its claim. */
  ghost predicate Stranded<T>(s: State<T>) {
    && InBounds(s) && s.head == s.tail && s.slots[s.tail].Some?
    && (forall id {:trigger s.threads[id]} :: id in s.threads ==> StrandedLocal(s, s.threads[id]))
  }

  ghost predicate StrandedLocal<T>(s: State<T>, local: Local<T>) {
    match local
    case Idle => true
    case EHead(_, head) => true
    case EClaim(_, tail, _) => tail == s.tail
    case DHead(head) => head == s.head
    case _ => false
  }

  lemma StrandedStep<T>(s: State<T>, id: ThreadId, action: Action<T>)
    requires Stranded(s) && Enabled(s, id, action)
    ensures Stranded(Apply(s, id, action))
    ensures Apply(s, id, action).slots == s.slots && Apply(s, id, action).dequeued == s.dequeued
  {
    MaskedNext(s.tail, |s.slots|);
    var s' := Apply(s, id, action);
    MovedInBounds(s, s', id, s'.threads[id]);
  }

  /** No steps of any threads ever free a stranded queue. */
  lemma {:induction false} StrandedForGood<T>(s: State<T>, steps: seq<Step<T>>)
    requires Stranded(s) && Legal(s, steps)
    ensures Stranded(After(s, steps)) && After(s, steps).slots == s.slots && After(s, steps).dequeued == s.dequeued
    decreases |steps|
  {
    hide Enabled, Apply, Stranded;
    if steps != [] {
      StrandedStep(s, steps[0].id, steps[0].action);
      StrandedForGood(Apply(s, steps[0].id, steps[0].action), steps[1..]);
    }
  }

  /** The slot at head is free although tail is elsewhere: every `try_dequeue` gives up at that slot,
      and no `try_enqueue` may ever claim it, since it would make the ring full. */
  ghost predicate Blocked<T>(s: State<T>) {
    && InBounds(s) && s.head != s.tail && s.slots[s.head] == None
    && (forall id {:trigger s.threads[id]} :: id in s.threads ==> BlockedLocal(s.head, s.threads[id]))
  }

  ghost predicate BlockedLocal<T>(free: nat, local: Local<T>) {
    match local
    case Idle => true
    case EHead(_, head) => head == free
    case EClaim(_, tail, nextTail) => tail != free && nextTail != free
    case EPublish(nextTail) => nextTail != free
    case DHead(head) => head == free
    case DSlot(head) => head == free
    case _ => false
  }

  lemma BlockedStep<T>(s: State<T>, id: ThreadId, action: Action<T>)
    requires Blocked(s) && Enabled(s, id, action)
    ensures Blocked(Apply(s, id, action))
    ensures Apply(s, id, action).dequeued == s.dequeued
  {
    MaskedNext(s.tail, |s.slots|);
    MaskedNext(s.head, |s.slots|);
    assert BlockedLocal(s.head, s.threads[id]) && LocalInBounds(s.threads[id], |s.slots|);
    var s' := Apply(s, id, action);
    MovedInBounds(s, s', id, s'.threads[id]);
  }

  lemma {:induction false} BlockedForGood<T>(s: State<T>, steps: seq<Step<T>>)
    requires Blocked(s) && Legal(s, steps)
    ensures Blocked(After(s, steps)) && After(s, steps).dequeued == s.dequeued
    decreases |steps|
  {
    hide Enabled, Apply, Blocked;
    if steps != [] {
      BlockedStep(s, steps[0].id, steps[0].action);
      BlockedForGood(Apply(s, steps[0].id, steps[0].action), steps[1..]);
    }
  }

  /** A buffer of one slot is full from the start: a dequeue finds head and tail equal. */
  ghost predicate OneSlot<T>(s: State<T>) {
    && InBounds(s) && |s.slots| == 1
    && (forall id {:trigger s.threads[id]} :: id in s.threads ==> OneSlotLocal(s.threads[id]))
  }

  ghost predicate OneSlotLocal<T>(local: Local<T>) {
    local.Idle? || local.EHead? || local.DHead?
  }

  lemma OneSlotStep<T>(s: State<T>, id: ThreadId, action: Action<T>)
    requires OneSlot(s) && Enabled(s, id, action)
    ensures OneSlot(Apply(s, id, action))
    ensures Apply(s, id, action).dequeued == s.dequeued && Apply(s, id, action).slots == s.slots
  {
    MaskedNext(0, 1);
    assert OneSlotLocal(s.threads[id]) && LocalInBounds(s.threads[id], 1);
    var s' := Apply(s, id, action);
    MovedInBounds(s, s', id, s'.threads[id]);
  }

  lemma {:induction false} OneSlotForGood<T>(s: State<T>, steps: seq<Step<T>>)
    requires OneSlot(s) && Legal(s, steps)
    ensures OneSlot(After(s, steps)) && After(s, steps).dequeued == s.dequeued && After(s, steps).slots == s.slots
    decreases |steps|
  {
    hide Enabled, Apply, OneSlot;
    if steps != [] {
      OneSlotStep(s, steps[0].id, steps[0].action);
      OneSlotForGood(Apply(s, steps[0].id, steps[0].action), steps[1..]);
    }
  }

  // ---- runs in which only some threads enqueue and only some dequeue

  ghost predicate Allowed<T>(step: Step<T>, producers: set<ThreadId>, consumers: set<ThreadId>) {
    && (step.action.CallEnqueue? ==> step.id in producers)
    && (step.action.CallDequeue? ==> step.id in consumers)
  }

  ghost predicate Leads<T>(s: State<T>, steps: seq<Step<T>>, s': State<T>, producers: set<ThreadId>,
                           consumers: set<ThreadId>) {
    && Legal(s, steps) && After(s, steps) == s' && InBounds(s')
    && forall i :: 0 <= i < |steps| ==> Allowed(steps[i], producers, consumers)
  }

  ghost predicate Reachable<T(!new)>(s: State<T>, s': State<T>, producers: set<ThreadId>, consumers: set<ThreadId>) {
    exists steps :: Leads(s, steps, s', producers, consumers)
  }

  lemma Onwards<T(!new)>(s: State<T>, s1: State<T>, s2: State<T>, producers: set<ThreadId>, consumers: set<ThreadId>)
    requires Reachable(s, s1, producers, consumers) && Reachable(s1, s2, producers, consumers)
    ensures Reachable(s, s2, producers, consumers)
  {
    hide InBounds, Legal, After;
    var first :| Leads(s, first, s1, producers, consumers);
    var second :| Leads(s1, second, s2, producers, consumers);
    Continued(s, first, second);
    assert Leads(s, first + second, s2, producers, consumers);
  }

  lemma Steps<T(!new)>(s: State<T>, id: ThreadId, action: Action<T>, producers: set<ThreadId>, consumers: set<ThreadId>)
    requires InBounds(s) && Enabled(s, id, action) && Allowed(Step(id, action), producers, consumers)
    ensures Reachable(s, Apply(s, id, action), producers, consumers)
    ensures InBounds(Apply(s, id, action))
  {
    StepKeepsBounds(s, id, action);
    hide InBounds, Enabled, Apply;
    var steps := [Step(id, action)];
    assert steps[0] == Step(id, action) && steps[1..] == [];
    assert Legal(Apply(s, id, action), []) && After(Apply(s, id, action), []) == Apply(s, id, action);
    assert Legal(s, steps) && After(s, steps) == Apply(s, id, action);
    assert Leads(s, steps, Apply(s, id, action), producers, consumers);
  }

  lemma MovedTwice<T>(s: State<T>, id: ThreadId, first: Local<T>, second: Local<T>)
    ensures Moved(Moved(s, id, first), id, second) == Moved(s, id, second)
  {
    assert s.threads[id := first][id := second] == s.threads[id := second];
  }

  lemma MovedBack<T>(s: State<T>, id: ThreadId)
    requires id in s.threads && s.threads[id] == Idle
    ensures Moved(s, id, Idle) == s
  {
    assert s.threads[id := Idle] == s.threads;
  }

  /** A thread loads head and tail and is about to claim the slot at tail. */
  lemma Arrives<T(!new)>(s: State<T>, id: ThreadId, task: T, producers: set<ThreadId>, consumers: set<ThreadId>)
    requires InBounds(s) && id in s.threads && s.threads[id] == Idle && id in producers
    requires Masked(s.tail + 1, |s.slots|) != s.head
    ensures Reachable(s, Moved(s, id, EClaim(task, s.tail, Masked(s.tail + 1, |s.slots|))), producers, consumers)
    ensures InBounds(Moved(s, id, EClaim(task, s.tail, Masked(s.tail + 1, |s.slots|))))
  {
    var s1 := Moved(s, id, EHead(task, s.head));
    var s2 := Moved(s, id, EClaim(task, s.tail, Masked(s.tail + 1, |s.slots|)));
    MaskedNext(s.head, |s.slots|);
    Steps(s, id, CallEnqueue(task), producers, consumers);
    Steps(s1, id, Continue(false), producers, consumers);
    MovedTwice(s, id, EHead(task, s.head), EClaim(task, s.tail, Masked(s.tail + 1, |s.slots|)));
    Onwards(s, s1, s2, producers, consumers);
  }

  ghost function Published<T>(s: State<T>, id: ThreadId, task: T, slot: nat, tail: nat): State<T>
    requires slot < |s.slots|
  {
    Moved(s, id, Idle).(slots := s.slots[slot := Some(task)], tail := tail, enqueued := s.enqueued + multiset{task})
  }

  /** It claims the slot, if that is free by then, and stores the tail it worked out on arrival. */
  lemma Publishes<T(!new)>(s: State<T>, id: ThreadId, task: T, slot: nat, tail: nat, producers: set<ThreadId>,
                           consumers: set<ThreadId>)
    requires InBounds(s) && id in s.threads && s.threads[id] == EClaim(task, slot, tail)
    requires slot < |s.slots| && s.slots[slot] == None
    ensures Reachable(s, Published(s, id, task, slot, tail), producers, consumers)
    ensures InBounds(Published(s, id, task, slot, tail))
  {
    var s1 := Apply(s, id, Continue(false));
    Steps(s, id, Continue(false), producers, consumers);
    Steps(s1, id, Continue(false), producers, consumers);
    MovedTwice(s, id, EPublish(tail), Idle);
    Onwards(s, s1, Published(s, id, task, slot, tail), producers, consumers);
  }

  /** A whole enqueue that nothing interrupts. */
  lemma Enqueues<T(!new)>(s: State<T>, id: ThreadId, task: T, producers: set<ThreadId>, consumers: set<ThreadId>)
    requires InBounds(s) && id in s.threads && s.threads[id] == Idle && id in producers
    requires Masked(s.tail + 1, |s.slots|) != s.head && s.slots[s.tail] == None
    ensures var s' := s.(slots := s.slots[s.tail := Some(task)], tail := Masked(s.tail + 1, |s.slots|),
                         enqueued := s.enqueued + multiset{task});
            Reachable(s, s', producers, consumers) && InBounds(s')
  {
    var next := Masked(s.tail + 1, |s.slots|);
    Arrives(s, id, task, producers, consumers);
    hide InBounds, Reachable, Masked;
    var s1 := Moved(s, id, EClaim(task, s.tail, next));
    Publishes(s1, id, task, s.tail, next, producers, consumers);
    MovedTwice(s, id, EClaim(task, s.tail, next), Idle);
    MovedBack(s, id);
    Onwards(s, s1, Published(s1, id, task, s.tail, next), producers, consumers);
  }

  ghost function Dequeued<T>(s: State<T>, id: ThreadId, task: T, head: nat): State<T>
    requires head < |s.slots|
  {
    Moved(s, id, Idle).(slots := s.slots[head := None], head := Masked(head + 1, |s.slots|),
        dequeued := s.dequeued + multiset{task})
  }

  /** A thread that loaded head some time ago sees tail elsewhere, finds a task and is about to claim it. */
  lemma Finds<T(!new)>(s: State<T>, id: ThreadId, task: T, head: nat, producers: set<ThreadId>,
                       consumers: set<ThreadId>)
    requires InBounds(s) && id in s.threads && s.threads[id] == DHead(head)
    requires head < |s.slots| && head != s.tail && s.slots[head] == Some(task)
    ensures Reachable(s, Moved(s, id, DClaim(head, task)), producers, consumers)
    ensures InBounds(Moved(s, id, DClaim(head, task)))
  {
    MaskedNext(head, |s.slots|);
    var s1 := Moved(s, id, DSlot(head));
    Steps(s, id, Continue(false), producers, consumers);
    Steps(s1, id, Continue(false), producers, consumers);
    MovedTwice(s, id, DSlot(head), DClaim(head, task));
    Onwards(s, s1, Moved(s, id, DClaim(head, task)), producers, consumers);
  }

  /** It claims the task and stores the head it worked out from its own load. */
  lemma Takes<T(!new)>(s: State<T>, id: ThreadId, task: T, head: nat, producers: set<ThreadId>,
                       consumers: set<ThreadId>)
    requires InBounds(s) && id in s.threads && s.threads[id] == DClaim(head, task)
    requires head < |s.slots| && s.slots[head] == Some(task)
    ensures Reachable(s, Dequeued(s, id, task, head), producers, consumers)
    ensures InBounds(Dequeued(s, id, task, head))
  {
    MaskedNext(head, |s.slots|);
    var s1 := Apply(s, id, Continue(false));
    Steps(s, id, Continue(false), producers, consumers);
    Steps(s1, id, Continue(false), producers, consumers);
    MovedTwice(s, id, DPublish(head), Idle);
    Onwards(s, s1, Dequeued(s, id, task, head), producers, consumers);
  }

  /** The rest of a dequeue whose load of head lies some time back. */
  lemma Finishes<T(!new)>(s: State<T>, id: ThreadId, task: T, head: nat, producers: set<ThreadId>,
                          consumers: set<ThreadId>)
    requires InBounds(s) && id in s.threads && s.threads[id] == DHead(head)
    requires head < |s.slots| && head != s.tail && s.slots[head] == Some(task)
    ensures Reachable(s, Dequeued(s, id, task, head), producers, consumers)
    ensures InBounds(Dequeued(s, id, task, head))
  {
    hide InBounds, Reachable, Masked;
    var s1 := Moved(s, id, DClaim(head, task));
    Finds(s, id, task, head, producers, consumers);
    Takes(s1, id, task, head, producers, consumers);
    MovedTwice(s, id, DClaim(head, task), Idle);
    Onwards(s, s1, Dequeued(s1, id, task, head), producers, consumers);
  }

  /** A whole dequeue that nothing interrupts. */
  lemma Dequeues<T(!new)>(s: State<T>, id: ThreadId, task: T, producers: set<ThreadId>, consumers: set<ThreadId>)
    requires InBounds(s) && id in s.threads && s.threads[id] == Idle && id in consumers
    requires s.head != s.tail && s.slots[s.head] == Some(task)
    ensures var s' := s.(slots := s.slots[s.head := None], head := Masked(s.head + 1, |s.slots|),
                         dequeued := s.dequeued + multiset{task});
            Reachable(s, s', producers, consumers) && InBounds(s')
  {
    var s1 := Moved(s, id, DHead(s.head));
    Steps(s, id, CallDequeue, producers, consumers);
    hide InBounds, Reachable, Masked;
    Finishes(s1, id, task, s.head, producers, consumers);
    MovedTwice(s, id, DHead(s.head), Idle);
    MovedBack(s, id);
    Onwards(s, s1, Dequeued(s1, id, task, s.head), producers, consumers);
  }

  // ---- which states at rest are stuck

  ghost predicate NeverDequeues<T(!new)>(s: State<T>) {
    forall steps :: Legal(s, steps) ==> After(s, steps).dequeued == s.dequeued
  }

  lemma ReachesDequeue<T(!new)>(s: State<T>, s': State<T>, producers: set<ThreadId>, consumers: set<ThreadId>)
    requires Reachable(s, s', producers, consumers) && s'.dequeued != s.dequeued
    ensures !NeverDequeues(s)
  {
    var steps :| Leads(s, steps, s', producers, consumers);
    assert Legal(s, steps) && After(s, steps).dequeued != s.dequeued;
  }

  lemma StuckNeverDequeues<T(!new)>(s: State<T>)
    requires InBounds(s) && Quiet(s) && (|s.slots| == 1 || Stuck(s))
    ensures NeverDequeues(s)
  {
    forall steps | Legal(s, steps)
      ensures After(s, steps).dequeued == s.dequeued
    {
      if |s.slots| == 1 {
        assert OneSlot(s);
        OneSlotForGood(s, steps);
      } else if s.head == s.tail {
        assert Stranded(s);
        StrandedForGood(s, steps);
      } else {
        assert Blocked(s);
        BlockedForGood(s, steps);
      }
    }
  }

  /** A queue at rest never hands out a task again if and only if its buffer has a single slot, or
      head and tail disagree with the slot at head. */
  lemma QuietStuckIff<T(!new)>(s: State<T>, id: ThreadId, task: T)
    requires InBounds(s) && Quiet(s) && id in s.threads
    ensures NeverDequeues(s) <==> |s.slots| == 1 || Stuck(s)
  {
    if |s.slots| == 1 || Stuck(s) {
      StuckNeverDequeues(s);
    } else if s.head == s.tail {
      MaskedNext(s.tail, |s.slots|);
      Enqueues(s, id, task, {id}, {id});
      var next := Masked(s.tail + 1, |s.slots|);
      var s1 := s.(slots := s.slots[s.tail := Some(task)], tail := next, enqueued := s.enqueued + multiset{task});
      hide InBounds, Reachable, Masked, NeverDequeues;
      DequeuesSome(s1, id, task);
      var s2 := s1.(slots := s1.slots[s1.head := None], head := Masked(s1.head + 1, |s1.slots|),
          dequeued := s1.dequeued + multiset{task});
      Onwards(s, s1, s2, {id}, {id});
      OneMoreDiffers(s.dequeued, task);
      ReachesDequeue(s, s2, {id}, {id});
    } else {
      var found := s.slots[s.head].value;
      DequeuesSome(s, id, found);
      var s1 := s.(slots := s.slots[s.head := None], head := Masked(s.head + 1, |s.slots|),
          dequeued := s.dequeued + multiset{found});
      OneMoreDiffers(s.dequeued, found);
      ReachesDequeue(s, s1, {id}, {id});
    }
  }

  lemma DequeuesSome<T(!new)>(s: State<T>, id: ThreadId, task: T)
    requires InBounds(s) && id in s.threads && s.threads[id] == Idle
    requires s.head != s.tail && s.slots[s.head] == Some(task)
    ensures var s' := s.(slots := s.slots[s.head := None], head := Masked(s.head + 1, |s.slots|),
                         dequeued := s.dequeued + multiset{task});
            Reachable(s, s', {id}, {id}) && InBounds(s')
  {
    Dequeues(s, id, task, {id}, {id});
  }

  lemma OneMoreDiffers<T>(bag: multiset<T>, x: T)
    ensures bag + multiset{x} != bag
  {
    assert (bag + multiset{x})[x] == bag[x] + 1;
  }
}
