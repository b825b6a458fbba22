/** include/task_engine/task_queue.hpp, used by one thread at a time: the ring buffer is a bounded
    first-in first-out queue of at most capacity - 1 tasks. */
module TaskQueues {
  import opened Arithmetic
  import opened BitMask
  import opened Options

  const SIZE_MAX: nat := 0xFFFF_FFFF_FFFF_FFFF

  /** `capacity - 1` on an unsigned 64-bit integer. */
  function MaskOf(capacity: nat): nat {
    if capacity == 0 then SIZE_MAX else capacity - 1
  }

  /** The constructor's test. It lets a capacity of zero through. */
  predicate AcceptsCapacity(capacity: nat) {
    BitAnd(capacity, MaskOf(capacity)) == 0
  }

  lemma AcceptsCapacityIff(capacity: nat)
    ensures AcceptsCapacity(capacity) <==> capacity == 0 || IsPowerOfTwo(capacity)
  {
    if capacity > 0 {
      PowerOfTwoTest(capacity);
    }
  }

  // ---- rings: n values from position head on, wrapping around

  function Ahead(head: nat, i: nat, capacity: nat): nat {
    if head + i < capacity then head + i else head + i - capacity
  }

  function Span(head: nat, tail: nat, capacity: nat): nat
    requires head <= capacity
  {
    if tail >= head then tail - head else capacity - head + tail
  }

  /** The n slots from head on hold tasks, all others none. */
  ghost predicate IsRing<T>(slots: seq<Option<T>>, head: nat, n: nat) {
    && head < |slots| && n < |slots|
    && (forall i: nat {:trigger Ahead(head, i, |slots|)} :: i < n ==> slots[Ahead(head, i, |slots|)].Some?)
    && (forall i: nat {:trigger Ahead(head, i, |slots|)} :: n <= i < |slots| ==> slots[Ahead(head, i, |slots|)] == None)
  }

  ghost function Ring<T>(slots: seq<Option<T>>, head: nat, n: nat): (s: seq<T>)
    requires IsRing(slots, head, n)
    ensures |s| == n
  {
    seq(n, i requires 0 <= i < n => slots[Ahead(head, i, |slots|)].value)
  }

  lemma RingPush<T>(slots: seq<Option<T>>, head: nat, n: nat, task: T)
    requires IsRing(slots, head, n) && n + 1 < |slots|
    ensures var k := Ahead(head, n, |slots|);
            && k < |slots| && slots[k] == None
            && IsRing(slots[k := Some(task)], head, n + 1)
            && Ring(slots[k := Some(task)], head, n + 1) == Ring(slots, head, n) + [task]
  {
  }

  lemma RingPop<T>(slots: seq<Option<T>>, head: nat, n: nat)
    requires IsRing(slots, head, n) && n > 0
    ensures var h := Ahead(head, 1, |slots|);
            && slots[head] == Some(Ring(slots, head, n)[0])
            && IsRing(slots[head := None], h, n - 1)
            && Ring(slots[head := None], h, n - 1) == Ring(slots, head, n)[1..]
  {
    var h, c := Ahead(head, 1, |slots|), |slots|;
    assert Ahead(head, 0, c) == head;
    var slots' := slots[head := None];
    forall i: nat | i < c
      ensures i + 1 < c ==> Ahead(h, i, c) == Ahead(head, i + 1, c) != head
      ensures i + 1 == c ==> Ahead(h, i, c) == head
    {
    }
    assert Ring(slots', h, n - 1) == Ring(slots, head, n)[1..];
  }

  class LockFreeTaskQueue<T(==)> {
    const capacity: nat
    const mask: nat
    const buffer: array<Option<T>>
    /** Whether `compare_exchange_weak` fails only on a different value, as it does where the
        machine has a compare-and-swap instruction. */
    const strongCas: bool
    var head: nat
    var tail: nat

    ghost predicate Valid()
      reads this, buffer
    {
      && IsPowerOfTwo(capacity)
      && mask == capacity - 1
      && buffer.Length == capacity
      && head < capacity && tail < capacity
      && IsRing(buffer[..], head, Span(head, tail, capacity))
    }

    ghost function Contents(): (s: seq<T>)
      reads this, buffer
      requires Valid()
      ensures |s| < capacity
    {
      Ring(buffer[..], head, Span(head, tail, capacity))
    }

    constructor (capacity: nat, strongCas: bool)
      requires AcceptsCapacity(capacity)
      ensures this.capacity == capacity && this.strongCas == strongCas
      ensures fresh(buffer)
      ensures capacity > 0 ==> Valid() && Contents() == []
    {
      this.capacity, this.strongCas := capacity, strongCas;
      mask := MaskOf(capacity);
      buffer := new Option<T>[capacity](_ => None);
      head, tail := 0, 0;
      new;
      AcceptsCapacityIff(capacity);
    }

    /** `compare_exchange_weak`: it may fail although the slot holds the expected value. */
    method CompareExchange(i: nat, expected: Option<T>, desired: Option<T>) returns (ok: bool)
      requires i < buffer.Length
      modifies buffer
      ensures ok ==> old(buffer[i]) == expected && buffer[i] == desired
      ensures !ok ==> buffer[i] == old(buffer[i])
      ensures strongCas && old(buffer[i]) == expected ==> ok
      ensures forall j :: 0 <= j < buffer.Length && j != i ==> buffer[j] == old(buffer[j])
    {
      var spurious: bool := *;
      ok := buffer[i] == expected && (strongCas || !spurious);
      if ok {
        buffer[i] := desired;
      }
    }

    method TryEnqueue(task: T) returns (ok: bool)
      requires Valid()
      modifies this`tail, buffer
      ensures Valid()
      ensures ok ==> |old(Contents())| < capacity - 1 && Contents() == old(Contents()) + [task]
      ensures !ok ==> Contents() == old(Contents())
      ensures strongCas ==> (ok <==> |old(Contents())| < capacity - 1)
    {
      hide IsRing, Ring, BitAnd, IsPowerOfTwo;
      MaskWraps(tail + 1, capacity);
      MaskWraps(head, capacity);
      var nextTail := BitAnd(tail + 1, mask);
      if nextTail == BitAnd(head, mask) {
        return false;
      }
      ghost var n := Span(head, tail, capacity);
      assert tail == Ahead(head, n, capacity) && n + 1 < capacity;
      RingPush(buffer[..], head, n, task);
      ok := CompareExchange(tail, None, Some(task));
      if ok {
        assert buffer[..] == old(buffer[..])[tail := Some(task)];
        tail := nextTail;
      } else {
        assert buffer[..] == old(buffer[..]);
      }
    }

    method TryDequeue() returns (r: Option<T>)
      requires Valid()
      modifies this`head, buffer
      ensures Valid()
      ensures r.Some? ==> old(Contents()) != [] && r.value == old(Contents())[0] && Contents() == old(Contents())[1..]
      ensures r == None ==> Contents() == old(Contents())
      ensures strongCas ==> (r == None <==> old(Contents()) == [])
    {
      hide IsRing, Ring, BitAnd, IsPowerOfTwo;
      if head == tail {
        return None;
      }
      MaskWraps(head, capacity);
      MaskWraps(head + 1, capacity);
      ghost var n := Span(head, tail, capacity);
      RingPop(buffer[..], head, n);
      var task := buffer[BitAnd(head, mask)];
      if task == None {
        return None;
      }
      var ok := CompareExchange(BitAnd(head, mask), task, None);
      if ok {
        assert buffer[..] == old(buffer[..])[head := None];
        head := BitAnd(head + 1, mask);
        return task;
      }
      assert buffer[..] == old(buffer[..]);
      return None;
    }

    /** Stops at the first refusal; what was accepted before it stays. */
    method TryEnqueueBatch(tasks: seq<T>) returns (ok: bool, ghost accepted: nat)
      requires Valid()
      modifies this`tail, buffer
      ensures Valid()
      ensures accepted <= |tasks| && (ok <==> accepted == |tasks|)
      ensures Contents() == old(Contents()) + tasks[..accepted]
      ensures strongCas ==> accepted == Min(|tasks|, capacity - 1 - |old(Contents())|)
    {
      for j := 0 to |tasks|
        invariant Valid()
        invariant Contents() == old(Contents()) + tasks[..j]
      {
        var accept := TryEnqueue(tasks[j]);
        if !accept {
          return false, j;
        }
        assert tasks[..j + 1] == tasks[..j] + [tasks[j]];
      }
      return true, |tasks|;
    }

    /** Fills out from the front of the queue and reports how many slots it filled. */
    method TryDequeueBatch(out: array<Option<T>>) returns (count: nat)
      requires Valid() && out != buffer
      modifies this`head, buffer, out
      ensures Valid()
      ensures count <= out.Length && count <= |old(Contents())|
      ensures Contents() == old(Contents())[count..]
      ensures forall j :: 0 <= j < count ==> out[j] == Some(old(Contents())[j])
      ensures forall j :: count <= j < out.Length ==> out[j] == old(out[j])
      ensures strongCas ==> count == Min(out.Length, |old(Contents())|)
    {
      count := 0;
      while count < out.Length
        invariant Valid()
        invariant count <= out.Length && count <= |old(Contents())|
        invariant Contents() == old(Contents())[count..]
        invariant forall j :: 0 <= j < count ==> out[j] == Some(old(Contents())[j])
        invariant forall j :: count <= j < out.Length ==> out[j] == old(out[j])
      {
        var task := TryDequeue();
        if task == None {
          break;
        }
        out[count] := task;
        count := count + 1;
      }
    }

    method Empty() returns (r: bool)
      requires Valid()
      ensures r <==> Contents() == []
    {
      r := head == tail;
    }

    method Full() returns (r: bool)
      requires Valid()
      ensures r <==> |Contents()| == capacity - 1
    {
      MaskWraps(tail + 1, capacity);
      MaskWraps(head, capacity);
      r := BitAnd(tail + 1, mask) == BitAnd(head, mask);
    }

    method Size() returns (r: nat)
      requires Valid()
      ensures r == |Contents()|
    {
      if tail >= head {
        return tail - head;
      }
      return (capacity - head) + tail;
    }

    /** Slack counts the slot that is never used: a full queue still has a slack of one. */
    method Slack() returns (r: nat)
      requires Valid()
      ensures r == capacity - |Contents()| && r >= 1
    {
      var size := Size();
      r := capacity - size;
    }

    method Clear()
      requires Valid()
      modifies this, buffer
      ensures Valid() && Contents() == []
    {
      hide Ring, BitAnd, IsPowerOfTwo;
      var h, t := head, tail;
      ghost var n, done := Span(head, tail, capacity), 0;
      while h != t
        invariant head == old(head) && tail == old(tail)
        invariant h < capacity && done <= n && h == Ahead(head, done, capacity)
        invariant forall i: nat {:trigger Ahead(head, i, capacity)} :: i < done ==>
                  buffer[Ahead(head, i, capacity)] == None
        invariant forall i: nat {:trigger Ahead(head, i, capacity)} :: n <= i < capacity ==>
                  buffer[Ahead(head, i, capacity)] == None
        decreases n - done
      {
        MaskWraps(h + 1, capacity);
        buffer[h] := None;
        h := BitAnd(h + 1, mask);
        done := done + 1;
      }
      forall i | 0 <= i < capacity
        ensures buffer[i] == None
      {
        assert i == Ahead(head, if i >= head then i - head else i + capacity - head, capacity);
      }
      head := 0;
      tail := 0;
    }
  }
}
