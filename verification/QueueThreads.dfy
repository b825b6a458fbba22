/** How many producers and consumers the ring buffer of include/task_engine/task_queue.hpp bears:
    which sets of threads can bring it to a stuck state at rest, for every capacity. */
module QueueThreads {
  import opened BitMask
  import opened Options
  import opened QueueMpmc
  import opened QueueStranding
  import Spsc = QueueSpsc

  function NewQueue<T>(c: nat, threads: set<ThreadId>): State<T> {
    State(seq(c, _ => None), 0, 0, map id | id in threads :: Idle, multiset{}, multiset{})
  }

  // ---- runs into a stuck state

  /** The tasks first, first + 1, ..., n of them. */
  ghost function Tasks(first: int, n: nat): (bag: multiset<int>)
    ensures forall x :: bag[x] == if first <= x < first + n then 1 else 0
  {
    if n == 0 then multiset{} else Tasks(first, n - 1) + multiset{first + n - 1}
  }

  /** An empty queue after n rounds of one enqueue and one dequeue. */
  ghost function Rounded(s: State<int>, first: int, n: nat): State<int> {
    var end := if s.head + n < |s.slots| then s.head + n else 0;
    s.(head := end, tail := end, enqueued := s.enqueued + Tasks(first, n), dequeued := s.dequeued + Tasks(first, n))
  }

  lemma OneRound(s: State<int>, producer: ThreadId, consumer: ThreadId, task: int, producers: set<ThreadId>,
                 consumers: set<ThreadId>)
    requires InBounds(s) && |s.slots| >= 2 && s.head == s.tail && s.slots[s.head] == None
    requires producer in producers && producer in s.threads && s.threads[producer] == Idle
    requires consumer in consumers && consumer in s.threads && s.threads[consumer] == Idle
    ensures var next := if s.head + 1 < |s.slots| then s.head + 1 else 0;
            var s' := s.(head := next, tail := next, enqueued := s.enqueued + multiset{task},
                dequeued := s.dequeued + multiset{task});
            Reachable(s, s', producers, consumers) && InBounds(s')
  {
    MaskedNext(s.tail, |s.slots|);
    Enqueues(s, producer, task, producers, consumers);
    var next := Masked(s.tail + 1, |s.slots|);
    var s1 := s.(slots := s.slots[s.tail := Some(task)], tail := next, enqueued := s.enqueued + multiset{task});
    Dequeues(s1, consumer, task, producers, consumers);
    hide InBounds, Reachable;
    var s2 := s1.(slots := s1.slots[s1.head := None], head := Masked(s1.head + 1, |s1.slots|),
        dequeued := s1.dequeued + multiset{task});
    assert s2.slots == s.slots;
    Onwards(s, s1, s2, producers, consumers);
  }

  lemma {:induction false} Rounds(s: State<int>, producer: ThreadId, consumer: ThreadId, first: int, n: nat,
                                  producers: set<ThreadId>, consumers: set<ThreadId>)
    requires InBounds(s) && |s.slots| >= 2 && s.head == s.tail && s.head + n <= |s.slots|
    requires forall i :: s.head <= i < s.head + n ==> s.slots[i] == None
    requires producer in producers && producer in s.threads && s.threads[producer] == Idle
    requires consumer in consumers && consumer in s.threads && s.threads[consumer] == Idle
    ensures Reachable(s, Rounded(s, first, n), producers, consumers) && InBounds(Rounded(s, first, n))
    decreases n
  {
    hide Reachable;
    if n == 0 {
      assert s.enqueued + multiset{} == s.enqueued && s.dequeued + multiset{} == s.dequeued;
      StaysPut(s, producers, consumers);
    } else {
      Rounds(s, producer, consumer, first, n - 1, producers, consumers);
      var s1 := Rounded(s, first, n - 1);
      OneRound(s1, producer, consumer, first + n - 1, producers, consumers);
      AddedLast(s.enqueued, first, n);
      AddedLast(s.dequeued, first, n);
      Onwards(s, s1, Rounded(s, first, n), producers, consumers);
    }
  }

  lemma AddedLast(bag: multiset<int>, first: int, n: nat)
    requires n > 0
    ensures (bag + Tasks(first, n - 1)) + multiset{first + n - 1} == bag + Tasks(first, n)
  {
  }

  lemma StaysPut<T(!new)>(s: State<T>, producers: set<ThreadId>, consumers: set<ThreadId>)
    requires InBounds(s)
    ensures Reachable(s, s, producers, consumers)
  {
    assert Leads(s, [], s, producers, consumers);
  }

  /** Every task has been enqueued at most once. */
  ghost predicate EachOnce(s: State<int>) {
    forall x :: s.enqueued[x] <= 1
  }

  ghost predicate MayStick(c: nat, producers: set<ThreadId>, consumers: set<ThreadId>) {
    exists s :: Reachable(NewQueue(c, producers + consumers), s, producers, consumers)
                && InBounds(s) && Quiet(s) && Stuck(s) && EachOnce(s)
  }

  lemma NewInBounds<T>(c: nat, threads: set<ThreadId>)
    requires IsPowerOfTwo(c) && c > 0
    ensures InBounds(NewQueue<T>(c, threads)) && Quiet(NewQueue<T>(c, threads)) && Initial(NewQueue<T>(c, threads))
  {
  }

  /** One producer works out its claim of slot 0 and the tail behind it, and is overtaken by a round
      of another producer. Its late store makes the queue call itself empty with a task inside, and
      a few more rounds bring head to that task. */
  lemma TwoProducersStick(c: nat, slow: ThreadId, producer: ThreadId, consumer: ThreadId,
                          producers: set<ThreadId>, consumers: set<ThreadId>)
    requires IsPowerOfTwo(c) && c >= 2
    requires slow in producers && producer in producers && consumer in consumers && slow != producer && slow != consumer
    ensures MayStick(c, producers, consumers)
  {
    var s0 := NewQueue<int>(c, producers + consumers);
    NewInBounds<int>(c, producers + consumers);
    MaskedNext(0, c);
    Arrives(s0, slow, 0, producers, consumers);
    hide Reachable, InBounds, Masked;
    var s1 := Moved(s0, slow, EClaim(0, 0, 1));
    Rounds(s1, producer, consumer, 1, 1, producers, consumers);
    var s2 := Rounded(s1, 1, 1);
    Onwards(s0, s1, s2, producers, consumers);
    Publishes(s2, slow, 0, 0, 1, producers, consumers);
    var s3 := Published(s2, slow, 0, 0, 1);
    Onwards(s0, s2, s3, producers, consumers);
    Rounds(s3, producer, consumer, 2, c - 1, producers, consumers);
    var s4 := Rounded(s3, 2, c - 1);
    Onwards(s0, s3, s4, producers, consumers);
    assert s4.head == s4.tail == 0 && s4.slots[0] == Some(0);
    assert Quiet(s4) && Stuck(s4) && EachOnce(s4);
  }

  /** One consumer loads head and is overtaken. When slot 0 has been filled again behind another
      task it takes its turn too early, and its store of head skips the other task. */
  lemma TwoConsumersStick(c: nat, slow: ThreadId, producer: ThreadId, consumer: ThreadId,
                          producers: set<ThreadId>, consumers: set<ThreadId>)
    requires IsPowerOfTwo(c) && c >= 4
    requires slow in consumers && producer in producers && consumer in consumers && slow != producer && slow != consumer
    ensures MayStick(c, producers, consumers)
  {
    var s0 := NewQueue<int>(c, producers + consumers);
    NewInBounds<int>(c, producers + consumers);
    var s1 := Moved(s0, slow, DHead(0));
    Steps(s0, slow, CallDequeue, producers, consumers);
    hide Reachable, InBounds;
    Rounds(s1, producer, consumer, 0, c - 1, producers, consumers);
    var s2 := Rounded(s1, 0, c - 1);
    Onwards(s0, s1, s2, producers, consumers);
    var s4 := TwoMore(s2, producer, c, producers, consumers);
    Onwards(s0, s2, s4, producers, consumers);
    Finishes(s4, slow, c, 0, producers, consumers);
    var s5 := Dequeued(s4, slow, c, 0);
    Onwards(s0, s4, s5, producers, consumers);
    MaskedNext(0, c) by {
      NewInBounds<int>(c, producers + consumers);
    }
    assert s5.head == s5.tail == 1;
    Rounds(s5, producer, consumer, c + 1, c - 2, producers, consumers);
    var s6 := Rounded(s5, c + 1, c - 2);
    Onwards(s0, s5, s6, producers, consumers);
    assert s6.head == s6.tail == c - 1 && s6.slots[c - 1] == Some(c - 1);
    assert Quiet(s6) && Stuck(s6) && EachOnce(s6);
  }

  /** Two enqueues across the end of the buffer. */
  lemma TwoMore(s: State<int>, producer: ThreadId, c: nat, producers: set<ThreadId>,
                consumers: set<ThreadId>) returns (s': State<int>)
    requires InBounds(s) && |s.slots| == c >= 4 && s.head == s.tail == c - 1
    requires s.slots[c - 1] == None && s.slots[0] == None
    requires producer in producers && producer in s.threads && s.threads[producer] == Idle
    ensures s' == s.(slots := s.slots[c - 1 := Some(c - 1)][0 := Some(c)], tail := 1,
                     enqueued := s.enqueued + multiset{c - 1} + multiset{c})
    ensures Reachable(s, s', producers, consumers) && InBounds(s')
  {
    MaskedNext(c - 1, c);
    MaskedNext(0, c);
    hide Reachable, InBounds;
    Enqueues(s, producer, c - 1, producers, consumers);
    var s1 := s.(slots := s.slots[c - 1 := Some(c - 1)], tail := 0, enqueued := s.enqueued + multiset{c - 1});
    Enqueues(s1, producer, c, producers, consumers);
    s' := s1.(slots := s1.slots[0 := Some(c)], tail := 1, enqueued := s1.enqueued + multiset{c});
    Onwards(s, s1, s', producers, consumers);
  }

  // ---- one producer and one consumer never get there

  ghost predicate ProducerIs<T>(local: Local<T>, p: Spsc.Producer<T>) {
    match local
    case EHead(task, head) => p.PHead? && p.task == task && p.head == head
    case EClaim(task, tail, nextTail) => p == Spsc.PClaim(task, tail, nextTail)
    case EPublish(nextTail) => p == Spsc.PPublish(nextTail)
    case _ => p.PIdle?
  }

  ghost predicate ConsumerIs<T>(local: Local<T>, q: Spsc.Consumer<T>) {
    match local
    case DHead(head) => q == Spsc.CHead(head)
    case DSlot(head) => q == Spsc.CSlot(head)
    case DClaim(head, task) => q == Spsc.CClaim(head, task)
    case DPublish(head) => q.CPublish? && q.head == head
    case _ => q.CIdle?
  }

  /** The state of the two-thread machine that a state with one producer p and one consumer q shows;
      p and q may be the same thread. */
  ghost predicate Shows<T>(m: State<T>, s: Spsc.State<T>, p: ThreadId, q: ThreadId) {
    && s.slots == m.slots && s.head == m.head && s.tail == m.tail
    && (forall id {:trigger m.threads[id]} :: id in m.threads && id != p && id != q ==> m.threads[id] == Idle)
    && (if p in m.threads then ProducerIs(m.threads[p], s.producer) else s.producer.PIdle?)
    && (if q in m.threads then ConsumerIs(m.threads[q], s.consumer) else s.consumer.CIdle?)
    && (p != q && p in m.threads ==> ConsumerIs(m.threads[p], Spsc.CIdle))
    && (p != q && q in m.threads ==> ProducerIs(m.threads[q], Spsc.PIdle))
  }

  /** Which step of that machine a step of the thread is. */
  ghost function StepOf<T>(local: Local<T>, action: Action<T>): Spsc.Step<T> {
    match local
    case Idle => if action.CallEnqueue? then Spsc.LoadHead(action.task) else Spsc.TakeHead
    case EHead(_, _) => Spsc.LoadTail
    case EClaim(_, _, _) => Spsc.ClaimSlot(action.Continue? && action.spurious)
    case EPublish(_) => Spsc.StoreTail
    case DHead(_) => Spsc.TakeTail
    case DSlot(_) => Spsc.TakeSlot
    case DClaim(_, _) => Spsc.ClaimTask(action.Continue? && action.spurious)
    case DPublish(_) => Spsc.StoreHead
  }

  lemma ProducerMoved<T>(m: State<T>, m': State<T>, s: Spsc.State<T>, s': Spsc.State<T>, p: ThreadId, q: ThreadId,
                         local: Local<T>)
    requires Shows(m, s, p, q) && p in m.threads && m'.threads == m.threads[p := local]
    requires s'.slots == m'.slots && s'.head == m'.head && s'.tail == m'.tail && s'.consumer == s.consumer
    requires ConsumerIs(m.threads[p], Spsc.CIdle) && ConsumerIs(local, Spsc.CIdle) && ProducerIs(local, s'.producer)
    ensures Shows(m', s', p, q)
  {
  }

  lemma ConsumerMoved<T>(m: State<T>, m': State<T>, s: Spsc.State<T>, s': Spsc.State<T>, p: ThreadId, q: ThreadId,
                         local: Local<T>)
    requires Shows(m, s, p, q) && q in m.threads && m'.threads == m.threads[q := local]
    requires s'.slots == m'.slots && s'.head == m'.head && s'.tail == m'.tail && s'.producer == s.producer
    requires ProducerIs(m.threads[q], Spsc.PIdle) && ProducerIs(local, Spsc.PIdle) && ConsumerIs(local, s'.consumer)
    ensures Shows(m', s', p, q)
  {
  }

  lemma ShownProducer<T>(m: State<T>, s: Spsc.State<T>, p: ThreadId, q: ThreadId, action: Action<T>)
    requires InBounds(m) && Shows(m, s, p, q)
    requires Enabled(m, p, action) && ConsumerIs(m.threads[p], Spsc.CIdle) && !action.CallDequeue?
    ensures Spsc.Enabled(s, StepOf(m.threads[p], action))
    ensures Shows(Apply(m, p, action), Spsc.Apply(s, StepOf(m.threads[p], action)), p, q)
  {
    assert LocalInBounds(m.threads[p], |m.slots|);
    var m' := Apply(m, p, action);
    var s' := Spsc.Apply(s, StepOf(m.threads[p], action));
    hide Shows;
    ProducerMoved(m, m', s, s', p, q, m'.threads[p]);
  }

  lemma ShownConsumer<T>(m: State<T>, s: Spsc.State<T>, p: ThreadId, q: ThreadId, action: Action<T>)
    requires InBounds(m) && Shows(m, s, p, q)
    requires Enabled(m, q, action) && ProducerIs(m.threads[q], Spsc.PIdle) && !action.CallEnqueue?
    ensures Spsc.Enabled(s, StepOf(m.threads[q], action))
    ensures Shows(Apply(m, q, action), Spsc.Apply(s, StepOf(m.threads[q], action)), p, q)
  {
    var local := m.threads[q];
    assert LocalInBounds(local, |m.slots|);
    match local {
      case DSlot(head) => MaskedNext(head, |m.slots|);
      case DClaim(head, _) => MaskedNext(head, |m.slots|);
      case _ =>
    }
    var m' := Apply(m, q, action);
    var s' := Spsc.Apply(s, StepOf(local, action));
    hide Shows, InBounds;
    ConsumerMoved(m, m', s, s', p, q, m'.threads[q]);
  }

  lemma ShownStep<T>(m: State<T>, s: Spsc.State<T>, p: ThreadId, q: ThreadId, id: ThreadId, action: Action<T>)
    requires InBounds(m) && Shows(m, s, p, q)
    requires Enabled(m, id, action) && Allowed(Step(id, action), {p}, {q})
    ensures Spsc.Enabled(s, StepOf(m.threads[id], action))
    ensures Shows(Apply(m, id, action), Spsc.Apply(s, StepOf(m.threads[id], action)), p, q)
  {
    hide InBounds;
    if id == p && ConsumerIs(m.threads[p], Spsc.CIdle) && !action.CallDequeue? {
      ShownProducer(m, s, p, q, action);
    } else {
      assert id == q && ProducerIs(m.threads[q], Spsc.PIdle) && !action.CallEnqueue?;
      ShownConsumer(m, s, p, q, action);
    }
  }

  lemma {:induction false} ShownRun<T>(m: State<T>, s: Spsc.State<T>, p: ThreadId, q: ThreadId, steps: seq<Step<T>>)
    returns (s': Spsc.State<T>)
    requires InBounds(m) && Spsc.Inv(s) && Shows(m, s, p, q) && Legal(m, steps)
    requires forall i :: 0 <= i < |steps| ==> Allowed(steps[i], {p}, {q})
    ensures Spsc.Inv(s') && Shows(After(m, steps), s', p, q)
    decreases |steps|
  {
    hide Spsc.Inv, Shows, InBounds, Apply, Allowed;
    if steps == [] {
      return s;
    }
    ShownStep(m, s, p, q, steps[0].id, steps[0].action);
    Spsc.StepKeeps(s, StepOf(m.threads[steps[0].id], steps[0].action));
    StepKeepsBounds(m, steps[0].id, steps[0].action);
    s' := ShownRun(Apply(m, steps[0].id, steps[0].action),
        Spsc.Apply(s, StepOf(m.threads[steps[0].id], steps[0].action)),
                   p, q, steps[1..]);
  }

  lemma QuietShownIsNotStuck<T>(m: State<T>, s: Spsc.State<T>, p: ThreadId, q: ThreadId)
    requires InBounds(m) && Spsc.Inv(s) && Shows(m, s, p, q) && Quiet(m)
    ensures !Stuck(m)
  {
    Spsc.RestAgrees(s);
  }

  /** One producer and one consumer, or one thread in both roles, never leave the queue stuck. */
  lemma OneOfEachNeverSticks<T(!new)>(c: nat, threads: set<ThreadId>, p: ThreadId, q: ThreadId, m: State<T>)
    requires IsPowerOfTwo(c) && c > 0
    requires Reachable(NewQueue<T>(c, threads), m, {p}, {q}) && InBounds(m) && Quiet(m)
    ensures !Stuck(m)
  {
    var m0 := NewQueue<T>(c, threads);
    NewInBounds<T>(c, threads);
    var s0 := Spsc.State(m0.slots, 0, 0, Spsc.PIdle, Spsc.CIdle, [], []);
    Spsc.InitialOk(s0);
    var steps :| Leads(m0, steps, m, {p}, {q});
    var s := ShownRun(m0, s0, p, q, steps);
    QuietShownIsNotStuck(m, s, p, q);
  }

  // ---- two slots bear any number of consumers

  ghost predicate Pending<T>(s: State<T>) {
    exists id :: id in s.threads && s.threads[id].DPublish?
  }

  /** At most one task is inside, and while a consumer has yet to store head there is none: the
      producer then sees a full buffer. So a claim out of turn finds nothing to take. */
  ghost predicate TwoSlots<T>(s: State<T>, p: ThreadId) {
    var e, d := |s.enqueued|, |s.dequeued|;
    && InBounds(s) && |s.slots| == 2
    && d <= e <= d + 1 && (Pending(s) ==> e == d)
    && s.slots[e % 2] == None && (s.slots[(e + 1) % 2].Some? <==> e == d + 1)
    && s.tail == (if p in s.threads && s.threads[p].EPublish? then (e + 1) % 2 else e % 2)
    && s.head == (if Pending(s) then (d + 1) % 2 else d % 2)
    && (forall id {:trigger s.threads[id]} :: id in s.threads ==> TwoSlotsLocal(s, p, id))
  }

  ghost predicate TwoSlotsLocal<T>(s: State<T>, p: ThreadId, id: ThreadId)
    requires id in s.threads
  {
    var e, d := |s.enqueued|, |s.dequeued|;
    match s.threads[id]
    case EHead(_, head) => id == p && (head == e % 2 ==> e == d && !Pending(s))
    case EClaim(_, tail, nextTail) => id == p && e == d && !Pending(s) && tail == e % 2 && nextTail == (e + 1) % 2
    case EPublish(nextTail) => id == p && nextTail == e % 2
    case DPublish(head) => head == (d + 1) % 2
        && (forall other :: other in s.threads && s.threads[other].DPublish? ==> other == id)
    case _ => true
  }

  lemma PendingMoved<T>(s: State<T>, s': State<T>, id: ThreadId, local: Local<T>)
    requires id in s.threads && s'.threads == s.threads[id := local]
    requires s.threads[id].DPublish? ==> forall other :: other in s.threads && s.threads[other].DPublish? ==>
             other == id
    ensures Pending(s') <==> local.DPublish? || (Pending(s) && !s.threads[id].DPublish?)
  {
    if local.DPublish? {
      assert s'.threads[id].DPublish?;
    }
    if other :| other in s.threads && s.threads[other].DPublish? && other != id {
      assert s'.threads[other].DPublish?;
    }
  }

  /** A thread moves and nothing is claimed or published. */
  lemma TwoSlotsMoved<T>(s: State<T>, p: ThreadId, id: ThreadId, local: Local<T>)
    requires TwoSlots(s, p) && id in s.threads && LocalInBounds(local, 2)
    requires !s.threads[id].DPublish? && !local.DPublish? && !s.threads[id].EPublish? && !local.EPublish?
    requires Pending(Moved(s, id, local)) == Pending(s) ==> TwoSlotsLocal(Moved(s, id, local), p, id)
    ensures TwoSlots(Moved(s, id, local), p)
  {
    var s' := Moved(s, id, local);
    PendingMoved(s, s', id, local);
    MovedInBounds(s, s', id, local);
    hide InBounds, Pending;
    forall other | other in s'.threads
      ensures TwoSlotsLocal(s', p, other)
    {
      if other != id {
        assert TwoSlotsLocal(s, p, other);
      }
    }
  }

  lemma TwoSlotsClaim<T>(s: State<T>, p: ThreadId, id: ThreadId)
    requires TwoSlots(s, p) && id in s.threads && s.threads[id].EClaim? && s.threads[id].tail < 2
             && s.slots[s.threads[id].tail] == None
    ensures TwoSlots(Apply(s, id, Continue(false)), p)
  {
    var s' := Apply(s, id, Continue(false));
    assert TwoSlotsLocal(s, p, id);
    PendingMoved(s, s', id, s'.threads[id]);
    StepKeepsBounds(s, id, Continue(false));
    hide InBounds, Pending;
    forall other | other in s'.threads
      ensures TwoSlotsLocal(s', p, other)
    {
      if other != id {
        assert TwoSlotsLocal(s, p, other);
      }
    }
  }

  lemma TwoSlotsStoreTail<T>(s: State<T>, p: ThreadId, id: ThreadId, spurious: bool)
    requires TwoSlots(s, p) && id in s.threads && s.threads[id].EPublish?
    ensures TwoSlots(Apply(s, id, Continue(spurious)), p)
  {
    var s' := Apply(s, id, Continue(spurious));
    assert TwoSlotsLocal(s, p, id);
    PendingMoved(s, s', id, Idle);
    StepKeepsBounds(s, id, Continue(spurious));
    hide InBounds, Pending;
    forall other | other in s'.threads
      ensures TwoSlotsLocal(s', p, other)
    {
      if other != id {
        assert TwoSlotsLocal(s, p, other);
      }
    }
  }

  lemma TwoSlotsTake<T>(s: State<T>, p: ThreadId, id: ThreadId)
    requires TwoSlots(s, p) && id in s.threads && s.threads[id].DClaim? && s.threads[id].head < 2
    requires s.slots[s.threads[id].head] == Some(s.threads[id].task)
    ensures TwoSlots(Apply(s, id, Continue(false)), p)
  {
    MaskedNext(s.threads[id].head, 2);
    var s' := Apply(s, id, Continue(false));
    PendingMoved(s, s', id, s'.threads[id]);
    StepKeepsBounds(s, id, Continue(false));
    assert !Pending(s);
    forall other | other in s'.threads && s'.threads[other].DPublish?
      ensures other == id
    {
    }
    hide InBounds, Pending;
    forall other | other in s'.threads
      ensures TwoSlotsLocal(s', p, other)
    {
      if other != id {
        assert TwoSlotsLocal(s, p, other);
      }
    }
  }

  lemma TwoSlotsStoreHead<T>(s: State<T>, p: ThreadId, id: ThreadId, spurious: bool)
    requires TwoSlots(s, p) && id in s.threads && s.threads[id].DPublish?
    ensures TwoSlots(Apply(s, id, Continue(spurious)), p)
  {
    var s' := Apply(s, id, Continue(spurious));
    assert TwoSlotsLocal(s, p, id) && Pending(s);
    MaskedNext(s.threads[id].head, 2);
    PendingMoved(s, s', id, Idle);
    StepKeepsBounds(s, id, Continue(spurious));
    hide InBounds, Pending;
    forall other | other in s'.threads
      ensures TwoSlotsLocal(s', p, other)
    {
      if other != id {
        assert TwoSlotsLocal(s, p, other);
      }
    }
  }

  /** The producer loads head, and then tests for a full buffer: it goes on only if it is empty. */
  lemma TwoSlotsArrives<T>(s: State<T>, p: ThreadId, action: Action<T>)
    requires TwoSlots(s, p) && Enabled(s, p, action) && !action.CallDequeue?
             && (s.threads[p].Idle? || s.threads[p].EHead?)
    ensures TwoSlots(Apply(s, p, action), p)
  {
    var local := s.threads[p];
    assert TwoSlotsLocal(s, p, p) && LocalInBounds(local, 2);
    MaskedNext(s.tail, 2);
    if local.EHead? {
      MaskedNext(local.head, 2);
    }
    var next := Apply(s, p, action).threads[p];
    assert Apply(s, p, action) == Moved(s, p, next);
    hide InBounds, Pending;
    TwoSlotsMoved(s, p, p, next);
  }

  /** Everything else that changes neither slots nor indices. */
  lemma TwoSlotsLooks<T>(s: State<T>, p: ThreadId, id: ThreadId, action: Action<T>)
    requires TwoSlots(s, p) && Enabled(s, id, action) && !action.CallEnqueue?
    requires var local := s.threads[id];
             match local
             case Idle => true
             case EClaim(_, tail, _) => tail < 2 && (action.spurious || s.slots[tail] != None)
             case DHead(_) => true
             case DSlot(_) => true
             case DClaim(head, task) => head < 2 && (action.spurious || s.slots[head] != Some(task))
             case _ => false
    ensures TwoSlots(Apply(s, id, action), p)
  {
    var local := s.threads[id];
    assert LocalInBounds(local, 2);
    if local.DSlot? || local.DClaim? {
      MaskedNext(local.head, 2);
    }
    var next := Apply(s, id, action).threads[id];
    assert Apply(s, id, action) == Moved(s, id, next);
    assert next.Idle? || next.DHead? || next.DSlot? || next.DClaim?;
    assert LocalInBounds(next, 2);
    hide InBounds, Pending, TwoSlots, Apply;
    TwoSlotsMoved(s, p, id, next);
  }

  lemma TwoSlotsStep<T>(s: State<T>, p: ThreadId, id: ThreadId, action: Action<T>)
    requires TwoSlots(s, p) && Enabled(s, id, action) && (action.CallEnqueue? ==> id == p)
    ensures TwoSlots(Apply(s, id, action), p)
  {
    var local := s.threads[id];
    assert TwoSlotsLocal(s, p, id) && LocalInBounds(local, 2);
    hide InBounds, Pending, Apply;
    if local.EPublish? {
      TwoSlotsStoreTail(s, p, id, action.spurious);
    } else if local.DPublish? {
      TwoSlotsStoreHead(s, p, id, action.spurious);
    } else if local.EClaim? && !action.spurious && s.slots[local.tail] == None {
      TwoSlotsClaim(s, p, id);
    } else if local.DClaim? && !action.spurious && s.slots[local.head] == Some(local.task) {
      TwoSlotsTake(s, p, id);
    } else if action.CallEnqueue? || local.EHead? {
      TwoSlotsArrives(s, p, action);
    } else {
      TwoSlotsLooks(s, p, id, action);
    }
  }

  lemma {:induction false} TwoSlotsRun<T>(s: State<T>, p: ThreadId, consumers: set<ThreadId>, steps: seq<Step<T>>)
    requires TwoSlots(s, p) && Legal(s, steps)
    requires forall i :: 0 <= i < |steps| ==> Allowed(steps[i], {p}, consumers)
    ensures TwoSlots(After(s, steps), p)
    decreases |steps|
  {
    hide TwoSlots, InBounds, Enabled, Apply;
    if steps != [] {
      assert Allowed(steps[0], {p}, consumers);
      TwoSlotsStep(s, p, steps[0].id, steps[0].action);
      TwoSlotsRun(Apply(s, steps[0].id, steps[0].action), p, consumers, steps[1..]);
    }
  }

  /** Two slots and one producer: never stuck, however many consumers there are. */
  lemma OneProducerTwoSlotsNeverSticks<T(!new)>(threads: set<ThreadId>, p: ThreadId, consumers: set<ThreadId>,
                                                m: State<T>)
    requires Reachable(NewQueue<T>(2, threads), m, {p}, consumers) && InBounds(m) && Quiet(m)
    ensures !Stuck(m)
  {
    var m0 := NewQueue<T>(2, threads);
    assert Pow2(1) == 2;
    NewInBounds<T>(2, threads);
    var steps :| Leads(m0, steps, m, {p}, consumers);
    assert !Pending(m0) && TwoSlots(m0, p);
    TwoSlotsRun(m0, p, consumers, steps);
    assert !Pending(m);
  }

  lemma OneSlotNeverSticks<T(!new)>(threads: set<ThreadId>, producers: set<ThreadId>, consumers: set<ThreadId>,
                                    m: State<T>)
    requires Reachable(NewQueue<T>(1, threads), m, producers, consumers) && InBounds(m) && Quiet(m)
    ensures !Stuck(m)
  {
    var m0 := NewQueue<T>(1, threads);
    assert Pow2(0) == 1;
    NewInBounds<T>(1, threads);
    var steps :| Leads(m0, steps, m, producers, consumers);
    OneSlotForGood(m0, steps);
  }

  // ---- the exact condition

  lemma Smaller(c: nat)
    requires IsPowerOfTwo(c) && c < 4
    ensures c == 1 || c == 2
  {
    var k: nat :| c == Pow2(k);
    if k >= 2 {
      FourUp(k);
    }
  }

  lemma FourUp(k: nat)
    requires k >= 2
    ensures Pow2(k) >= 4
  {
    Pow2Positive(k - 2);
    assert Pow2(k) == 2 * Pow2(k - 1) == 4 * Pow2(k - 2);
  }

  lemma Singleton(s: set<ThreadId>) returns (x: ThreadId)
    requires s != {} && |s| < 2
    ensures s == {x}
  {
    x :| x in s;
    assert |s - {x}| == |s| - 1;
    assert s == {x} + (s - {x});
  }

  lemma TwoOf(s: set<ThreadId>, other: ThreadId) returns (x: ThreadId, y: ThreadId)
    requires |s| >= 2
    ensures x in s && y in s && x != y && x != other
  {
    x :| x in s - {other} by {
      if s - {other} == {} {
        assert s <= {other};
        Subset(s, {other});
      }
    }
    y :| y in s - {x} by {
      assert |s - {x}| == |s| - 1;
    }
  }

  lemma Subset(a: set<ThreadId>, b: set<ThreadId>)
    requires a <= b
    ensures |a| <= |b|
  {
    assert |b - a| + |a| == |b| by {
      assert (b - a) + a == b && (b - a) !! a;
    }
  }

  /** Which threads can leave the queue stuck at rest: two producers on any buffer that holds a task
      at all, or two consumers on any larger than the smallest such; and no others. With one producer and
      one consumer the queue delivers. */
  lemma MayStickIff(c: nat, producers: set<ThreadId>, consumers: set<ThreadId>)
    requires IsPowerOfTwo(c) && producers != {} && consumers != {}
    ensures MayStick(c, producers, consumers) <==> (|producers| >= 2 && c >= 2) || (|consumers| >= 2 && c >= 4)
  {
    if |producers| >= 2 && c >= 2 {
      var consumer :| consumer in consumers;
      var slow, producer := TwoOf(producers, consumer);
      TwoProducersStick(c, slow, producer, consumer, producers, consumers);
    } else if |consumers| >= 2 && c >= 4 {
      var producer :| producer in producers;
      var slow, consumer := TwoOf(consumers, producer);
      TwoConsumersStick(c, slow, producer, consumer, producers, consumers);
    } else {
      forall m | Reachable(NewQueue<int>(c, producers + consumers), m, producers, consumers) && InBounds(m) && Quiet(m)
        ensures !Stuck(m)
      {
        NeverSticks(c, producers, consumers, m);
      }
    }
  }

  lemma NeverSticks(c: nat, producers: set<ThreadId>, consumers: set<ThreadId>, m: State<int>)
    requires IsPowerOfTwo(c) && producers != {} && consumers != {}
    requires (|producers| < 2 || c < 2) && (|consumers| < 2 || c < 4)
    requires Reachable(NewQueue<int>(c, producers + consumers), m, producers, consumers) && InBounds(m) && Quiet(m)
    ensures !Stuck(m)
  {
    if c < 4 {
      Smaller(c);
    }
    if c == 1 {
      OneSlotNeverSticks(producers + consumers, producers, consumers, m);
    } else {
      var p := Singleton(producers);
      if c == 2 {
        OneProducerTwoSlotsNeverSticks(producers + consumers, p, consumers, m);
      } else {
        var q := Singleton(consumers);
        OneOfEachNeverSticks(c, producers + consumers, p, q, m);
      }
    }
  }
}
