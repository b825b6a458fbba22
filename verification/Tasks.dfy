/** include/task_engine/task.hpp: one task, its edges, its flags and its attempt counter. */
module Tasks {
  import opened Arithmetic
  import opened Options

  type TaskId = nat

  datatype TaskStatus = Pending | Ready | Running | Completed | Failed | Cancelled {
    predicate Terminal() { Completed? || Failed? || Cancelled? }
  }

  datatype TaskPriority = Low | Normal | High | Critical

  /** The value of a task's fields, with edges named by task id. */
  datatype TaskView = TaskView(
    status: TaskStatus,
    dependencies: seq<TaskId>,
    dependents: seq<TaskId>,
    dependenciesCount: int,
    maxRetries: nat,
    cancelled: bool,
    enqueued: bool,
    attempts: nat)
  {
    predicate IsReady() {
      dependenciesCount == 0 && (status.Pending? || status.Ready?) && !enqueued
    }

    predicate CanRetry() {
      !cancelled && maxRetries != 0 && (if attempts > 0 then attempts - 1 else 0) < maxRetries
    }

    /** The fields after k calls of `notify_dependency_completed`: one of the calls sees the
        counter reach zero exactly when 1 <= dependenciesCount <= k. */
    function Notified(k: nat): TaskView {
      this.(dependenciesCount := dependenciesCount - k,
            status := if 1 <= dependenciesCount <= k then Ready else status)
    }

    function ResetForRetry(): TaskView {
      this.(status := Pending, enqueued := false)
    }

    /** The first half of `execute`: everything before the task function is called. */
    function Begun(): TaskView {
      if cancelled then this.(status := Cancelled) else this.(status := Running, attempts := attempts + 1)
    }

    /** The second half of `execute`: the status it leaves behind. */
    function Ended(ok: bool): TaskView {
      this.(status := if ok then Completed else Failed)
    }
  }

  /** The limits among a task's options: a clock reading in nanoseconds, and a duration in microseconds
      that does not count when it is not positive. */
  datatype Limits = Limits(deadline: Option<int>, timeout: int)

  /** The clock readings of one attempt in nanoseconds, and whether the task function threw; `left` is the
      reading made when `execute` is left by an exception. */
  datatype Attempt = Attempt(started: int, checked: int, finished: int, left: int, threw: bool)

  datatype Ending = Fulfilled | MissedDeadline | Threw | TimedOut

  /** A missed deadline is noticed before the task function is called, a timeout only after it has
      returned, and an exception hides a timeout. */
  function EndingOf(limits: Limits, a: Attempt): Ending {
    if limits.deadline.Some? && a.checked > limits.deadline.value then MissedDeadline
    else if a.threw then Threw
    else if limits.timeout > 0 && a.finished - a.started > limits.timeout * NANOS_PER_MICRO then TimedOut
    else Fulfilled
  }

  /** The limits in which an attempt runs, before its outcome counts. */
  predicate DeadlineKept(limits: Limits, a: Attempt) {
    limits.deadline.None? || a.checked <= limits.deadline.value
  }

  /** What each outcome means, in nanoseconds. A missed deadline outranks everything, an exception
      outranks a timeout, and a timeout that is not positive is none. */
  lemma EndingMeans(limits: Limits, a: Attempt)
    ensures EndingOf(limits, a).MissedDeadline? <==> !DeadlineKept(limits, a)
    ensures EndingOf(limits, a).Threw? <==> DeadlineKept(limits, a) && a.threw
    ensures EndingOf(limits, a).TimedOut? <==>
            DeadlineKept(limits, a) && !a.threw && 0 < 1000 * limits.timeout < a.finished - a.started
  {
  }

  /** The longest timeout, in whole microseconds, that a duration in nanoseconds passes. */
  function LongestPassed(duration: int): int {
    (duration - 1) / 1000
  }

  /** Which timeouts an attempt passes: exactly the positive ones up to its duration, so that with any
      longer one, and with none, the same attempt is fulfilled. */
  lemma TimeoutIff(deadline: Option<int>, timeout: int, a: Attempt)
    requires DeadlineKept(Limits(deadline, timeout), a) && !a.threw
    ensures EndingOf(Limits(deadline, timeout), a)
            == if 1 <= timeout <= LongestPassed(a.finished - a.started) then TimedOut else Fulfilled
  {
    var d := a.finished - a.started - 1;
    assert d == 1000 * (d / 1000) + d % 1000;
  }

  /** Finishing later, or being given less time, never turns a timeout into a success; and an attempt
      depends on how its readings lie to each other and to the deadline, not on where the clock starts. */
  lemma EndingIsMonotone(limits: Limits, a: Attempt, later: int, tighter: int, shift: int)
    requires later >= a.finished && 0 < tighter <= limits.timeout
    ensures EndingOf(limits, a).TimedOut? ==> EndingOf(limits, a.(finished := later)).TimedOut?
    ensures EndingOf(limits, a).TimedOut? ==> EndingOf(limits.(timeout := tighter), a).TimedOut?
    ensures var moved := a.(started := a.started + shift, checked := a.checked + shift, finished := a.finished + shift);
            var deadline := if limits.deadline.Some? then Some(limits.deadline.value + shift) else None;
            EndingOf(Limits(deadline, limits.timeout), moved) == EndingOf(limits, a)
  {
  }

  function NewTask(maxRetries: nat): TaskView {
    TaskView(Pending, [], [], 0, maxRetries, false, false, 0)
  }

  /** Being notified j times and then k times is being notified j + k times. */
  lemma NotifiedTwice(v: TaskView, j: nat, k: nat)
    ensures v.Notified(j).Notified(k) == v.Notified(j + k)
  {
  }

  function Ids(s: seq<Task>): (r: seq<TaskId>)
    ensures |r| == |s|
    ensures forall i :: 0 <= i < |s| ==> r[i] == s[i].id
  {
    seq(|s|, i requires 0 <= i < |s| => s[i].id)
  }

  class Task {
    const id: TaskId
    const maxRetries: nat
    const priority: TaskPriority
    const limits: Limits
    var status: TaskStatus
    var dependencies: seq<Task>
    var dependents: seq<Task>
    var dependenciesCount: int
    var cancelled: bool
    var enqueued: bool
    var attempts: nat
    var startTime: Option<int>
    var endTime: Option<int>

    ghost function View(): TaskView
      reads this
    {
      TaskView(status, Ids(dependencies), Ids(dependents), dependenciesCount, maxRetries, cancelled, enqueued, attempts)
    }

    constructor (id: TaskId, maxRetries: nat, priority: TaskPriority, limits: Limits)
      ensures this.id == id && this.priority == priority && this.limits == limits
      ensures View() == NewTask(maxRetries)
      ensures dependencies == [] && dependents == [] && startTime == endTime == None
    {
      this.id, this.maxRetries, this.priority, this.limits := id, maxRetries, priority, limits;
      status, dependencies, dependents, dependenciesCount := Pending, [], [], 0;
      cancelled, enqueued, attempts, startTime, endTime := false, false, 0, None, None;
    }

    /** `execute` up to the call of the task function; false when it throws because of a cancellation. */
    method BeginExecute(now: int) returns (started: bool)
      modifies this`status, this`attempts, this`startTime
      ensures started == !old(cancelled)
      ensures View() == old(View()).Begun()
      ensures status == (if started then Running else Cancelled) && attempts == old(attempts) + if started then 1 else 0
      ensures startTime == if started then Some(now) else old(startTime)
    {
      if cancelled {
        status := Cancelled;
        return false;
      }
      status := Running;
      startTime := Some(now);
      attempts := attempts + 1;
      return true;
    }

    /** The rest of `execute`: it returns only if no limit was passed and the function did not throw. */
    method EndExecute(attempt: Attempt) returns (ending: Ending)
      requires startTime == Some(attempt.started)
      modifies this`status, this`endTime
      ensures ending == EndingOf(limits, attempt)
      ensures ending.MissedDeadline? <==> limits.deadline.Some? && attempt.checked > limits.deadline.value
      ensures ending.Threw? <==> !ending.MissedDeadline? && attempt.threw
      ensures ending.TimedOut? <==> !ending.MissedDeadline? && !attempt.threw
                                    && limits.timeout > 0 && attempt.finished - attempt.started > 1000 * limits.timeout
      ensures View() == old(View()).Ended(ending.Fulfilled?)
      ensures status == if ending.Fulfilled? then Completed else Failed
      ensures endTime == Some(if ending.Fulfilled? then attempt.finished else attempt.left)
    {
      if limits.deadline.Some? && attempt.checked > limits.deadline.value {
        status, endTime := Failed, Some(attempt.left);
        return MissedDeadline;
      }
      if attempt.threw {
        status, endTime := Failed, Some(attempt.left);
        return Threw;
      }
      endTime := Some(attempt.finished);
      if limits.timeout > 0 && attempt.finished - startTime.value > limits.timeout * NANOS_PER_MICRO {
        status, endTime := Failed, Some(attempt.left);
        return TimedOut;
      }
      status := Completed;
      return Fulfilled;
    }

    /** In whole microseconds, towards zero; nothing if there is no attempt to measure. */
    function ExecutionTime(): (time: int)
      reads this
      ensures startTime.Some? && endTime.Some? ==>
                var d := endTime.value - startTime.value;
                if d >= 0 then 1000 * time <= d < 1000 * time + 1000 else 1000 * time - 1000 < d <= 1000 * time
      ensures startTime.None? || endTime.None? ==> time == 0
    {
      if startTime.Some? && endTime.Some? then Truncated(endTime.value - startTime.value, NANOS_PER_MICRO) else 0
    }

    /** The pushes go through the pointers, so a task may become its own dependency. */
    method AddDependency(dependency: Task)
      modifies this`dependencies, this`dependenciesCount, dependency`dependents
      ensures dependencies == old(dependencies) + [dependency]
      ensures dependency.dependents == old(dependency.dependents) + [this]
      ensures View() == old(View()).(dependencies := old(View()).dependencies + [dependency.id],
                                     dependents := old(View()).dependents + if dependency == this then [id] else [],
                                     dependenciesCount := old(dependenciesCount) + 1)
      ensures dependency != this ==>
                dependency.View() == old(dependency.View()).(dependents := old(dependency.View()).dependents + [id])
    {
      dependencies := dependencies + [dependency];
      dependency.dependents := dependency.dependents + [this];
      dependenciesCount := dependenciesCount + 1;
      assert Ids(dependencies) == old(Ids(dependencies)) + [dependency.id];
      assert Ids(dependency.dependents) == old(Ids(dependency.dependents)) + [id];
    }

    method NotifyDependencyCompleted()
      modifies this`dependenciesCount, this`status
      ensures View() == old(View()).Notified(1)
      ensures dependenciesCount == old(dependenciesCount) - 1
      ensures status == if dependenciesCount == 0 then Ready else old(status)
    {
      dependenciesCount := dependenciesCount - 1;
      var remaining := dependenciesCount;
      if remaining == 0 {
        status := Ready;
      }
    }

    method IsReady() returns (r: bool)
      ensures r == View().IsReady()
    {
      r := dependenciesCount == 0 && (status == Pending || status == Ready) && !enqueued;
    }

    method TryMarkEnqueued() returns (r: bool)
      modifies this`enqueued
      ensures r == !old(enqueued) && enqueued
      ensures View() == old(View()).(enqueued := true)
    {
      r := !enqueued;
      enqueued := true;
    }

    method ClearEnqueuedFlag()
      modifies this`enqueued
      ensures View() == old(View()).(enqueued := false)
    {
      enqueued := false;
    }

    method CanRetry() returns (r: bool)
      ensures r == View().CanRetry()
      ensures r <==> !cancelled && maxRetries > 0 && attempts <= maxRetries
    {
      if cancelled {
        return false;
      }
      if maxRetries == 0 {
        return false;
      }
      var retriesUsed := if attempts > 0 then attempts - 1 else 0;
      return retriesUsed < maxRetries;
    }

    method ResetForRetry()
      modifies this`status, this`enqueued, this`startTime, this`endTime
      ensures View() == old(View()).ResetForRetry()
      ensures status == Pending && !enqueued && startTime == endTime == None
    {
      status, startTime, endTime := Pending, None, None;
      ClearEnqueuedFlag();
    }
  }
}
