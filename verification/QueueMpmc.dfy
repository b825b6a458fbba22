/** include/task_engine/task_queue.hpp with any number of threads calling `try_enqueue` and
    `try_dequeue`: what every interleaving conserves, and what it does not. */
module QueueMpmc {
  import opened BitMask
  import opened Options
  import opened Sequences

  type ThreadId = nat

  /** Where a thread is in a call. */
  datatype Local<T> =
    | Idle
    | EHead(task: T, head: nat)
    | EClaim(task: T, tail: nat, nextTail: nat)
    | EPublish(nextTail: nat)
    | DHead(head: nat)
    | DSlot(head: nat)
    | DClaim(head: nat, task: T)
    | DPublish(head: nat)

  /** `enqueued` and `dequeued` are history: the tasks of all successful claims. */
  datatype State<T> = State(
    slots: seq<Option<T>>,
    head: nat,
    tail: nat,
    threads: map<ThreadId, Local<T>>,
    enqueued: multiset<T>,
    dequeued: multiset<T>)

  datatype Action<T> = CallEnqueue(task: T) | CallDequeue | Continue(spurious: bool)

  ghost predicate Initial<T>(s: State<T>) {
    && IsPowerOfTwo(|s.slots|) && |s.slots| > 0
    && (forall i :: 0 <= i < |s.slots| ==> s.slots[i] == None)
    && s.head == s.tail == 0
    && (forall id :: id in s.threads ==> s.threads[id] == Idle)
    && s.enqueued == s.dequeued == multiset{}
  }

  /** Every slot a thread is about to touch is a slot of the buffer. */
  ghost predicate InBounds<T>(s: State<T>) {
    && IsPowerOfTwo(|s.slots|) && |s.slots| > 0
    && s.head < |s.slots| && s.tail < |s.slots|
    && (forall id {:trigger s.threads[id]} :: id in s.threads ==> LocalInBounds(s.threads[id], |s.slots|))
  }

  ghost predicate LocalInBounds<T>(local: Local<T>, c: nat) {
    match local
    case Idle => true
    case EHead(_, head) => head < c
    case EClaim(_, tail, nextTail) => tail < c && nextTail < c
    case EPublish(nextTail) => nextTail < c
    case DHead(head) => head < c
    case DSlot(head) => head < c
    case DClaim(head, _) => head < c
    case DPublish(head) => head < c
  }

  ghost predicate Enabled<T>(s: State<T>, id: ThreadId, action: Action<T>) {
    && id in s.threads
    && (s.threads[id].Idle? <==> !action.Continue?)
  }

  /** One atomic step of one thread. */
  ghost function Apply<T>(s: State<T>, id: ThreadId, action: Action<T>): State<T>
    requires InBounds(s) && Enabled(s, id, action)
  {
    var c, local := |s.slots|, s.threads[id];
    match local
    case Idle =>
      Moved(s, id, if action.CallEnqueue? then EHead(action.task, s.head) else DHead(s.head))
    case EHead(task, head) =>
      var next := Masked(s.tail + 1, c);
      Moved(s, id, if next == Masked(head, c) then Idle else EClaim(task, s.tail, next))
    case EClaim(task, tail, nextTail) =>
      if action.spurious || s.slots[tail] != None then Moved(s, id, Idle)
      else Moved(s, id, EPublish(nextTail)).(slots := s.slots[tail := Some(task)],
          enqueued := s.enqueued + multiset{task})
    case EPublish(nextTail) => Moved(s, id, Idle).(tail := nextTail)
    case DHead(head) => Moved(s, id, if head == s.tail then Idle else DSlot(head))
    case DSlot(head) =>
      MaskedNext(head, c);
      var slot := s.slots[Masked(head, c)];
      Moved(s, id, if slot == None then Idle else DClaim(head, slot.value))
    case DClaim(head, task) =>
      MaskedNext(head, c);
      var i := Masked(head, c);
      if action.spurious || s.slots[i] != Some(task) then Moved(s, id, Idle)
      else Moved(s, id, DPublish(head)).(slots := s.slots[i := None], dequeued := s.dequeued + multiset{task})
    case DPublish(head) => Moved(s, id, Idle).(head := Masked(head + 1, c))
  }

  ghost function Moved<T>(s: State<T>, id: ThreadId, local: Local<T>): State<T> {
    s.(threads := s.threads[id := local])
  }

  // ---- conservation

  /** The tasks in the slots. */
  ghost function SlotBag<T>(slots: seq<Option<T>>): multiset<T> {
    if slots == [] then multiset{} else
      SlotBag(slots[..|slots| - 1]) + SlotOf(slots[|slots| - 1])
  }

  ghost function SlotOf<T>(slot: Option<T>): multiset<T> {
    if slot.Some? then multiset{slot.value} else multiset{}
  }

  lemma SlotBagLast<T>(slots: seq<Option<T>>, n: nat)
    requires |slots| == n + 1
    ensures SlotBag(slots) == SlotBag(slots[..n]) + SlotOf(slots[n])
  {
  }

  lemma {:induction false} SlotBagUpdate<T>(slots: seq<Option<T>>, i: nat, slot: Option<T>)
    requires i < |slots|
    ensures SlotBag(slots[i := slot]) + SlotOf(slots[i]) == SlotBag(slots) + SlotOf(slot)
  {
    hide SlotBag, SlotOf;
    var n, updated := |slots| - 1, slots[i := slot];
    SlotBagLast(slots, n);
    SlotBagLast(updated, n);
    if i == n {
      assert updated[..n] == slots[..n];
    } else {
      assert updated[..n] == slots[..n][i := slot];
      SlotBagUpdate(slots[..n], i, slot);
      Shuffle(SlotBag(slots[..n]), SlotBag(updated[..n]), SlotOf(slots[n]), SlotOf(slots[i]), SlotOf(slot));
    }
  }

  lemma {:induction false} SlotBagEmpty<T>(slots: seq<Option<T>>)
    requires forall i :: 0 <= i < |slots| ==> slots[i] == None
    ensures SlotBag(slots) == multiset{}
  {
    if slots != [] {
      SlotBagEmpty(slots[..|slots| - 1]);
    }
  }

  ghost predicate Inv<T>(s: State<T>) {
    InBounds(s) && s.enqueued == s.dequeued + SlotBag(s.slots)
  }

  lemma MovedInBounds<T>(s: State<T>, s': State<T>, id: ThreadId, local: Local<T>)
    requires InBounds(s) && |s'.slots| == |s.slots| && s'.head < |s.slots| && s'.tail < |s.slots|
    requires s'.threads == s.threads[id := local] && LocalInBounds(local, |s.slots|)
    ensures InBounds(s')
  {
  }

  lemma StepKeepsBounds<T>(s: State<T>, id: ThreadId, action: Action<T>)
    requires InBounds(s) && Enabled(s, id, action)
    ensures InBounds(Apply(s, id, action))
  {
    var c, s' := |s.slots|, Apply(s, id, action);
    MaskedNext(s.tail, c);
    assert LocalInBounds(s.threads[id], c);
    match s.threads[id]
    case DSlot(head) => MaskedNext(head, c);
    case DClaim(head, _) => MaskedNext(head, c);
    case DPublish(head) => MaskedNext(head, c);
    case _ =>
    MovedInBounds(s, s', id, s'.threads[id]);
  }

  lemma StepKeepsTasks<T>(s: State<T>, id: ThreadId, action: Action<T>)
    requires Inv(s) && Enabled(s, id, action)
    ensures Apply(s, id, action).enqueued == Apply(s, id, action).dequeued + SlotBag(Apply(s, id, action).slots)
  {
    hide SlotBag;
    var c, local := |s.slots|, s.threads[id];
    assert LocalInBounds(local, c);
    if local.EClaim? && s.slots[local.tail] == None {
      SlotBagUpdate(s.slots, local.tail, Some(local.task));
      var bag := SlotBag(s.slots[local.tail := Some(local.task)]);
      assert bag == SlotBag(s.slots) + multiset{local.task};
      assert s.dequeued + bag == (s.dequeued + SlotBag(s.slots)) + multiset{local.task};
    } else if local.DClaim? {
      MaskedNext(local.head, c);
      if s.slots[local.head] == Some(local.task) {
        SlotBagUpdate(s.slots, local.head, None);
        var bag := SlotBag(s.slots[local.head := None]);
        assert bag + multiset{local.task} == SlotBag(s.slots);
        assert (s.dequeued + multiset{local.task}) + bag == s.dequeued + (bag + multiset{local.task});
      }
    }
  }

  // ---- runs

  datatype Step<T> = Step(id: ThreadId, action: Action<T>)

  /** The steps can be taken one after the other, starting in s. */
  ghost predicate Legal<T>(s: State<T>, steps: seq<Step<T>>)
    decreases |steps|
  {
    steps == [] ||
    (InBounds(s) && Enabled(s, steps[0].id, steps[0].action)
        && Legal(Apply(s, steps[0].id, steps[0].action), steps[1..]))
  }

  ghost function After<T>(s: State<T>, steps: seq<Step<T>>): State<T>
    requires Legal(s, steps)
    decreases |steps|
  {
    if steps == [] then s else After(Apply(s, steps[0].id, steps[0].action), steps[1..])
  }

  lemma InitialOk<T>(s: State<T>)
    requires Initial(s)
    ensures Inv(s)
  {
    SlotBagEmpty(s.slots);
  }

  lemma {:induction false} RunKeeps<T>(s: State<T>, steps: seq<Step<T>>)
    requires Inv(s) && Legal(s, steps)
    ensures Inv(After(s, steps))
    decreases |steps|
  {
    hide Enabled, Apply, InBounds;
    if steps != [] {
      StepKeepsBounds(s, steps[0].id, steps[0].action);
      StepKeepsTasks(s, steps[0].id, steps[0].action);
      RunKeeps(Apply(s, steps[0].id, steps[0].action), steps[1..]);
    }
  }

  /** Conservation for any number of threads and any interleaving: the tasks of the successful
      enqueues are those of the successful dequeues and those in the slots, so none is overwritten,
      repeated or invented; and head, tail and every index a thread holds stay in the buffer. */
  lemma MpmcConservesTasks<T>(s: State<T>, steps: seq<Step<T>>)
    requires Initial(s) && Legal(s, steps)
    ensures InBounds(After(s, steps))
    ensures After(s, steps).enqueued == After(s, steps).dequeued + SlotBag(After(s, steps).slots)
  {
    InitialOk(s);
    RunKeeps(s, steps);
  }

  lemma {:induction false} Continued<T>(s: State<T>, first: seq<Step<T>>, second: seq<Step<T>>)
    requires Legal(s, first) && Legal(After(s, first), second)
    ensures Legal(s, first + second) && After(s, first + second) == After(After(s, first), second)
    decreases |first|
  {
    hide Enabled, Apply, InBounds;
    if first == [] {
      assert first + second == second;
    } else {
      assert (first + second)[1..] == first[1..] + second;
      Continued(Apply(s, first[0].id, first[0].action), first[1..], second);
    }
  }
}
