/** include/task_engine/task_queue.hpp with one producer and one consumer: each atomic load, each
    compare-and-swap and each store is a step of its own, and the steps interleave in any way. */
module QueueSpsc {
  import opened Arithmetic
  import opened BitMask
  import opened Options
  import opened TaskQueues

  /** Where the producer is in `try_enqueue`. `seen` is history: how many dequeues were published
      when it loaded head. */
  datatype Producer<T> =
    | PIdle
    | PHead(task: T, head: nat, seen: int)
    | PClaim(task: T, tail: nat, nextTail: nat)
    | PPublish(nextTail: nat)

  /** Where the consumer is in `try_dequeue`. */
  datatype Consumer<T> =
    | CIdle
    | CHead(head: nat)
    | CSlot(head: nat)
    | CClaim(head: nat, task: T)
    | CPublish(head: nat, task: T)

  /** `enqueued` and `dequeued` are history: the tasks of the successful claims, in order. */
  datatype State<T> = State(
    slots: seq<Option<T>>,
    head: nat,
    tail: nat,
    producer: Producer<T>,
    consumer: Consumer<T>,
    enqueued: seq<T>,
    dequeued: seq<T>)

  datatype Step<T> =
    | LoadHead(task: T)
    | LoadTail
    | ClaimSlot(spurious: bool)
    | StoreTail
    | TakeHead
    | TakeTail
    | TakeSlot
    | ClaimTask(spurious: bool)
    | StoreHead

  ghost predicate Initial<T>(s: State<T>) {
    && IsPowerOfTwo(|s.slots|)
    && (forall i :: 0 <= i < |s.slots| ==> s.slots[i] == None)
    && s.head == s.tail == 0
    && s.producer == PIdle && s.consumer == CIdle
    && s.enqueued == s.dequeued == []
  }

  ghost predicate Enabled<T>(s: State<T>, step: Step<T>) {
    && |s.slots| > 0
    && match step
       case LoadHead(_) => s.producer.PIdle?
       case LoadTail => s.producer.PHead?
       case ClaimSlot(_) => s.producer.PClaim? && s.producer.tail < |s.slots|
       case StoreTail => s.producer.PPublish?
       case TakeHead => s.consumer.CIdle?
       case TakeTail => s.consumer.CHead?
       case TakeSlot => s.consumer.CSlot? && Masked(s.consumer.head, |s.slots|) < |s.slots|
       case ClaimTask(_) => s.consumer.CClaim? && Masked(s.consumer.head, |s.slots|) < |s.slots|
       case StoreHead => s.consumer.CPublish?
  }

  ghost function Apply<T>(s: State<T>, step: Step<T>): State<T>
    requires Enabled(s, step)
  {
    var c := |s.slots|;
    match step
    case LoadHead(task) => s.(producer := PHead(task, s.head, Published(s)))
    case LoadTail =>
      var next := Masked(s.tail + 1, c);
      s.(producer := if next == Masked(s.producer.head, c) then PIdle else PClaim(s.producer.task, s.tail, next))
    case ClaimSlot(spurious) =>
      var p := s.producer;
      if spurious || s.slots[p.tail] != None then s.(producer := PIdle)
      else s.(slots := s.slots[p.tail := Some(p.task)], producer := PPublish(p.nextTail),
          enqueued := s.enqueued + [p.task])
    case StoreTail => s.(tail := s.producer.nextTail, producer := PIdle)
    case TakeHead => s.(consumer := CHead(s.head))
    case TakeTail => s.(consumer := if s.consumer.head == s.tail then CIdle else CSlot(s.consumer.head))
    case TakeSlot =>
      var slot := s.slots[Masked(s.consumer.head, c)];
      s.(consumer := if slot == None then CIdle else CClaim(s.consumer.head, slot.value))
    case ClaimTask(spurious) =>
      var q, i := s.consumer, Masked(s.consumer.head, c);
      if spurious || s.slots[i] != Some(q.task) then s.(consumer := CIdle)
      else s.(slots := s.slots[i := None], consumer := CPublish(q.head, q.task), dequeued := s.dequeued + [q.task])
    case StoreHead => s.(head := Masked(s.consumer.head + 1, c), consumer := CIdle)
  }

  /** Dequeues whose new head has been stored, and enqueues whose new tail has been stored. */
  function Published<T>(s: State<T>): int {
    |s.dequeued| - if s.consumer.CPublish? then 1 else 0
  }

  function Announced<T>(s: State<T>): int {
    |s.enqueued| - if s.producer.PPublish? then 1 else 0
  }

  // ---- remainders of consecutive counts

  lemma NextRemainder(k: nat, c: nat)
    requires c > 0
    ensures k % c < c && (k + 1) % c == if k % c + 1 < c then k % c + 1 else 0
  {
    WrapNext(k, c);
  }

  lemma AheadIsRemainder(k: nat, i: nat, c: nat)
    requires i < c
    ensures Ahead(k % c, i, c) == (k + i) % c
  {
    WrapSum(k, i, c);
  }

  lemma RemaindersDiffer(j: nat, k: nat, c: nat)
    requires c > 0 && j < k < j + c
    ensures j % c != k % c
  {
    AheadIsRemainder(j, k - j, c);
  }

  // ---- the invariant

  ghost predicate SlotsHold<T>(s: State<T>)
    requires |s.slots| > 0
  {
    var c, e, d := |s.slots|, |s.enqueued|, |s.dequeued|;
    && (forall k: nat {:trigger k % c} :: d <= k < e ==> s.slots[k % c] == Some(s.enqueued[k]))
    && (forall k: nat {:trigger k % c} :: e <= k < d + c ==> s.slots[k % c] == None)
  }

  ghost predicate ProducerOk<T>(s: State<T>)
    requires |s.slots| > 0
  {
    var c, e := |s.slots|, |s.enqueued|;
    match s.producer
    case PIdle => true
    case PHead(_, head, seen) => 0 <= seen <= Published(s) && head == seen % c && e - seen <= c - 1
    case PClaim(_, tail, nextTail) => tail == e % c && nextTail == (e + 1) % c && e + 1 - Published(s) <= c - 1
    case PPublish(nextTail) => e >= 1 && nextTail == e % c
  }

  ghost predicate ConsumerOk<T>(s: State<T>)
    requires |s.slots| > 0
  {
    var c, e, d := |s.slots|, |s.enqueued|, |s.dequeued|;
    match s.consumer
    case CIdle => true
    case CHead(head) => head == d % c
    case CSlot(head) => head == d % c && d < Announced(s)
    case CClaim(head, task) => head == d % c && d < Announced(s) && task == s.enqueued[d]
    case CPublish(head, task) => d >= 1 && head == (d - 1) % c && task == s.dequeued[d - 1]
  }

  ghost predicate Inv<T>(s: State<T>) {
    var c, e, d := |s.slots|, |s.enqueued|, |s.dequeued|;
    && IsPowerOfTwo(c) && c > 0
    && d <= e && s.dequeued == s.enqueued[..d]
    && e - Published(s) <= c - 1
    && Published(s) >= 0 && Announced(s) >= d
    && s.head == Published(s) % c && s.tail == Announced(s) % c
    && SlotsHold(s) && ProducerOk(s) && ConsumerOk(s)
  }

  lemma InitialOk<T>(s: State<T>)
    requires Initial(s)
    ensures Inv(s)
  {
    var k: nat :| |s.slots| == Pow2(k);
    Pow2Positive(k);
    Divided(0, |s.slots|, 0, 0);
    forall k: nat | 0 <= k < |s.slots|
      ensures s.slots[k % |s.slots|] == None
    {
      Divided(k, |s.slots|, 0, k);
    }
  }

  /** A move of the producer alone that neither claims nor publishes. */
  lemma ProducerMoves<T>(s: State<T>, p: Producer<T>)
    requires Inv(s) && !s.producer.PPublish? && !p.PPublish?
    requires ProducerOk(s.(producer := p))
    ensures Inv(s.(producer := p))
  {
    var s' := s.(producer := p);
    assert Announced(s') == Announced(s);
  }

  /** The test for a full queue sees a full queue: head was capacity - 1 behind when it was loaded. */
  lemma LoadTailKeeps<T>(s: State<T>)
    requires Inv(s) && Enabled(s, LoadTail)
    ensures Inv(Apply(s, LoadTail))
    ensures Apply(s, LoadTail).producer.PIdle? <==> |s.enqueued| - s.producer.seen == |s.slots| - 1
  {
    hide SlotsHold, ConsumerOk;
    var c, e, seen := |s.slots|, |s.enqueued|, s.producer.seen;
    MaskedNext(s.tail, c);
    MaskedNext(s.producer.head, c);
    NextRemainder(e, c);
    NextRemainder(seen, c);
    if e - seen == c - 1 {
      assert e + 1 == seen + c;
      SameRemainder(seen, c);
    } else {
      RemaindersDiffer(seen, e + 1, c);
    }
    ProducerMoves(s, Apply(s, LoadTail).producer);
  }

  lemma SameRemainder(k: nat, c: nat)
    requires c > 0
    ensures (k + c) % c == k % c
  {
    WrapSum(k, c, c);
  }

  /** With one producer the claimed slot is free, so the claim fails only spuriously. */
  lemma ClaimSlotKeeps<T>(s: State<T>, spurious: bool)
    requires Inv(s) && Enabled(s, ClaimSlot(spurious))
    ensures Inv(Apply(s, ClaimSlot(spurious)))
    ensures Apply(s, ClaimSlot(spurious)).producer.PIdle? <==> spurious
  {
    var c, e, d := |s.slots|, |s.enqueued|, |s.dequeued|;
    var s' := Apply(s, ClaimSlot(spurious));
    assert s.slots[e % c] == None;
    if !spurious {
      forall k: nat | d <= k < d + c && k != e
        ensures k % c != e % c
      {
        RemaindersDiffer(if k < e then k else e, if k < e then e else k, c);
      }
    }
  }

  lemma ProducerStoreKeeps<T>(s: State<T>)
    requires Inv(s) && Enabled(s, StoreTail)
    ensures Inv(Apply(s, StoreTail))
  {
  }

  lemma LoadHeadKeeps<T>(s: State<T>, task: T)
    requires Inv(s) && Enabled(s, LoadHead(task))
    ensures Inv(Apply(s, LoadHead(task)))
  {
  }

  lemma TakeHeadKeeps<T>(s: State<T>)
    requires Inv(s) && Enabled(s, TakeHead)
    ensures Inv(Apply(s, TakeHead))
  {
  }

  /** The test for an empty queue sees an empty queue: nothing announced is left. */
  lemma TakeTailKeeps<T>(s: State<T>)
    requires Inv(s) && Enabled(s, TakeTail)
    ensures Inv(Apply(s, TakeTail))
    ensures Apply(s, TakeTail).consumer.CIdle? <==> Announced(s) == |s.dequeued|
  {
    var c, d := |s.slots|, |s.dequeued|;
    if Announced(s) > d {
      RemaindersDiffer(d, Announced(s), c);
    }
  }

  lemma TakeSlotKeeps<T>(s: State<T>)
    requires Inv(s) && Enabled(s, TakeSlot)
    ensures Inv(Apply(s, TakeSlot))
    ensures Apply(s, TakeSlot).consumer == CClaim(s.consumer.head, s.enqueued[|s.dequeued|])
  {
    var c, d := |s.slots|, |s.dequeued|;
    NextRemainder(d, c);
    MaskedNext(s.consumer.head, c);
    assert s.slots[d % c] == Some(s.enqueued[d]);
  }

  /** The claim clears the slot of the oldest task and moves the window of taken slots on by one. */
  lemma ClaimedSlots<T>(s: State<T>, s': State<T>)
    requires |s.slots| > 0 && SlotsHold(s) && |s.dequeued| < |s.enqueued| < |s.dequeued| + |s.slots|
    requires s'.slots == s.slots[|s.dequeued| % |s.slots| := None]
    requires s'.enqueued == s.enqueued && |s'.dequeued| == |s.dequeued| + 1
    ensures SlotsHold(s')
  {
    var c, e, d := |s.slots|, |s.enqueued|, |s.dequeued|;
    SameRemainder(d, c);
    forall k: nat | d < k < d + c
      ensures k % c != d % c
    {
      RemaindersDiffer(d, k, c);
    }
  }

  /** With one consumer the claimed task is still there, so the claim fails only spuriously. */
  lemma ClaimTaskKeeps<T>(s: State<T>, spurious: bool)
    requires Inv(s) && Enabled(s, ClaimTask(spurious))
    ensures Inv(Apply(s, ClaimTask(spurious)))
    ensures Apply(s, ClaimTask(spurious)).consumer.CIdle? <==> spurious
  {
    var c, d := |s.slots|, |s.dequeued|;
    var s' := Apply(s, ClaimTask(spurious));
    NextRemainder(d, c);
    MaskedNext(s.consumer.head, c);
    assert s.slots[d % c] == Some(s.enqueued[d]);
    if !spurious {
      assert s'.dequeued == s.enqueued[..d + 1];
      ClaimedSlots(s, s');
      hide SlotsHold;
    }
  }

  lemma StoreHeadKeeps<T>(s: State<T>)
    requires Inv(s) && Enabled(s, StoreHead)
    ensures Inv(Apply(s, StoreHead))
  {
    var c, d := |s.slots|, |s.dequeued|;
    NextRemainder(d - 1, c);
    MaskedNext(s.consumer.head, c);
  }

  lemma StepKeeps<T>(s: State<T>, step: Step<T>)
    requires Inv(s) && Enabled(s, step)
    ensures Inv(Apply(s, step))
  {
    match step
    case LoadHead(task) => LoadHeadKeeps(s, task);
    case LoadTail => LoadTailKeeps(s);
    case ClaimSlot(spurious) => ClaimSlotKeeps(s, spurious);
    case StoreTail => ProducerStoreKeeps(s);
    case TakeHead => TakeHeadKeeps(s);
    case TakeTail => TakeTailKeeps(s);
    case TakeSlot => TakeSlotKeeps(s);
    case ClaimTask(spurious) => ClaimTaskKeeps(s, spurious);
    case StoreHead => StoreHeadKeeps(s);
  }

  // ---- runs

  ghost predicate Run<T>(states: seq<State<T>>, steps: seq<Step<T>>) {
    && |states| == |steps| + 1
    && Initial(states[0])
    && (forall i {:trigger StepAtIndex(states, steps, i)} :: 0 <= i < |steps| ==> StepAtIndex(states, steps, i))
  }

  ghost predicate StepAtIndex<T>(states: seq<State<T>>, steps: seq<Step<T>>, i: nat)
    requires |states| == |steps| + 1 && i < |steps|
  {
    Enabled(states[i], steps[i]) && states[i + 1] == Apply(states[i], steps[i])
  }

  lemma {:induction false} RunOk<T>(states: seq<State<T>>, steps: seq<Step<T>>, i: nat)
    requires Run(states, steps) && i < |states|
    ensures Inv(states[i])
  {
    hide Inv, Enabled, Apply;
    if i == 0 {
      InitialOk(states[0]);
    } else {
      RunOk(states, steps, i - 1);
      assert StepAtIndex(states, steps, i - 1);
      StepKeeps(states[i - 1], steps[i - 1]);
    }
  }

  /** The position the next claim of the consumer will read, and the one the next claim of the
      producer will write: head and tail, or the value about to be stored there. */
  function ClaimedHead<T>(s: State<T>): nat
    requires |s.slots| > 0
  {
    if s.consumer.CPublish? then Masked(s.consumer.head + 1, |s.slots|) else s.head
  }

  function ClaimedTail<T>(s: State<T>): nat {
    if s.producer.PPublish? then s.producer.nextTail else s.tail
  }

  lemma RingEnds<T>(s: State<T>)
    requires Inv(s)
    ensures var c, e, d := |s.slots|, |s.enqueued|, |s.dequeued|;
            && ClaimedHead(s) == d % c < c && ClaimedTail(s) == e % c < c
            && d <= e && e - d <= c - 1
            && Span(d % c, e % c, c) == e - d
  {
    hide SlotsHold;
    var c, e, d := |s.slots|, |s.enqueued|, |s.dequeued|;
    if s.consumer.CPublish? {
      NextRemainder(d - 1, c);
      MaskedNext(s.consumer.head, c);
    }
    NextRemainder(d, c);
    NextRemainder(e, c);
    AheadIsRemainder(d, e - d, c);
  }

  lemma RingSlots<T>(s: State<T>)
    requires |s.slots| > 0 && SlotsHold(s) && |s.dequeued| <= |s.enqueued| < |s.dequeued| + |s.slots|
    ensures var c, e, d := |s.slots|, |s.enqueued|, |s.dequeued|;
            IsRing(s.slots, d % c, e - d) && Ring(s.slots, d % c, e - d) == s.enqueued[d..]
  {
    var c, e, d := |s.slots|, |s.enqueued|, |s.dequeued|;
    forall i: nat | i < c
      ensures i < e - d ==> s.slots[Ahead(d % c, i, c)] == Some(s.enqueued[d + i])
      ensures i >= e - d ==> s.slots[Ahead(d % c, i, c)] == None
    {
      AheadIsRemainder(d, i, c);
      assert (d + i) % c == (d + i) % c;
    }
    NextRemainder(d, c);
    assert IsRing(s.slots, d % c, e - d);
  }

  lemma SlotsAreARing<T>(s: State<T>)
    requires Inv(s)
    ensures ClaimedHead(s) < |s.slots| && ClaimedTail(s) < |s.slots|
    ensures var n := Span(ClaimedHead(s), ClaimedTail(s), |s.slots|);
            && IsRing(s.slots, ClaimedHead(s), n)
            && s.enqueued == s.dequeued + Ring(s.slots, ClaimedHead(s), n)
            && n <= |s.slots| - 1
  {
    RingEnds(s);
    RingSlots(s);
    hide IsRing, Ring, SlotsHold, ClaimedHead, ClaimedTail;
  }

  /** When neither side is inside a call, head meets tail exactly where the slot is free. */
  lemma RestAgrees<T>(s: State<T>)
    requires Inv(s) && s.producer.PIdle? && s.consumer.CIdle?
    ensures s.head < |s.slots| && (s.head == s.tail <==> s.slots[s.head] == None)
  {
    var c, e, d := |s.slots|, |s.enqueued|, |s.dequeued|;
    NextRemainder(d, c);
    assert s.head == d % c && s.tail == e % c;
    if d < e {
      RemaindersDiffer(d, e, c);
      assert s.slots[d % c] == Some(s.enqueued[d]);
    } else {
      assert s.slots[d % c] == None;
    }
  }

  /** At every state of every interleaving the tasks enqueued are the tasks dequeued followed by the
      contents of the ring, which never number more than capacity - 1: first in, first out, nothing
      lost, repeated or overwritten. */
  lemma SpscIsABoundedFifo<T>(states: seq<State<T>>, steps: seq<Step<T>>, i: nat)
    requires Run(states, steps) && i < |states|
    ensures var s := states[i];
            && |s.slots| > 0 && ClaimedHead(s) < |s.slots| && ClaimedTail(s) < |s.slots|
            && var n := Span(ClaimedHead(s), ClaimedTail(s), |s.slots|);
               && n <= |s.slots| - 1
               && IsRing(s.slots, ClaimedHead(s), n)
               && s.enqueued == s.dequeued + Ring(s.slots, ClaimedHead(s), n)
  {
    hide Enabled, Apply;
    RunOk(states, steps, i);
    SlotsAreARing(states[i]);
  }

  /** Neither side ever indexes outside the buffer or finds its claim taken: a claim that does not
      fail spuriously succeeds, and what the consumer returns is the oldest task. */
  lemma SpscClaimsSucceed<T>(states: seq<State<T>>, steps: seq<Step<T>>, i: nat)
    requires Run(states, steps) && i < |states|
    ensures states[i].producer.PClaim? ==>
              Enabled(states[i], ClaimSlot(false)) && Apply(states[i], ClaimSlot(false)).producer.PPublish?
    ensures states[i].consumer.CClaim? ==>
              && Enabled(states[i], ClaimTask(false)) && Apply(states[i], ClaimTask(false)).consumer.CPublish?
              && |states[i].dequeued| < |states[i].enqueued|
              && states[i].consumer.task == states[i].enqueued[|states[i].dequeued|]
  {
    var s := states[i];
    RunOk(states, steps, i);
    var c := |s.slots|;
    if s.producer.PClaim? {
      NextRemainder(|s.enqueued|, c);
      ClaimSlotKeeps(s, false);
    }
    if s.consumer.CClaim? {
      NextRemainder(|s.dequeued|, c);
      MaskedNext(s.consumer.head, c);
      ClaimTaskKeeps(s, false);
    }
  }
}
