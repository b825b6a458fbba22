/** The counters of include/task_engine/performance_monitor.hpp that follow a task's life. */
module MonitorMetrics {
  datatype Metrics = Metrics(submitted: int, completed: int, failed: int, retried: int, inflight: int) {
    function Submission(): Metrics { this.(submitted := submitted + 1) }
    function Started(): Metrics { this.(inflight := inflight + 1) }
    function Completion(): Metrics { this.(completed := completed + 1, inflight := inflight - 1) }
    function Failure(): Metrics { this.(failed := failed + 1, inflight := inflight - 1) }
    function Retry(): Metrics { this.(retried := retried + 1) }
  }
}

/** The monitor object, used by one thread at a time. */
module PerformanceMonitors {
  import opened Arithmetic
  import opened MonitorMetrics

  const UINT64_MAX: int := 0xFFFF_FFFF_FFFF_FFFF

  /** A signed 64-bit time as the unsigned number it is cast to. */
  function AsUint64(x: int): (r: int)
    ensures -UINT64_MAX <= x <= UINT64_MAX ==> 0 <= r <= UINT64_MAX && (r == x || r == x + 0x1_0000_0000_0000_0000)
  {
    if x < 0 then x + UINT64_MAX + 1 else x
  }

  class PerformanceMonitor {
    var metrics: Metrics
    var peakInflight: int
    var totalExecutionTime: int
    var maxExecutionTime: int
    var minExecutionTime: int

    constructor ()
      ensures metrics == Metrics(0, 0, 0, 0, 0)
      ensures peakInflight == totalExecutionTime == maxExecutionTime == 0 && minExecutionTime == UINT64_MAX
    {
      metrics := Metrics(0, 0, 0, 0, 0);
      peakInflight, totalExecutionTime, maxExecutionTime, minExecutionTime := 0, 0, 0, UINT64_MAX;
    }

    /** One more execution time has entered the total and the extrema. */
    twostate predicate TimeCounted(time: int)
      reads this
    {
      && totalExecutionTime == old(totalExecutionTime) + Max(time, 0)
      && maxExecutionTime == Max(old(maxExecutionTime), AsUint64(time))
      && minExecutionTime == Min(old(minExecutionTime), AsUint64(time))
    }

    twostate predicate TimesKept()
      reads this
    {
      && totalExecutionTime == old(totalExecutionTime)
      && maxExecutionTime == old(maxExecutionTime) && minExecutionTime == old(minExecutionTime)
    }

    method RecordSubmission()
      modifies this`metrics
      ensures metrics == old(metrics).Submission()
    {
      metrics := metrics.Submission();
    }

    /** The compare-and-swap may fail spuriously, any finite number of times. */
    method RecordStart()
      modifies this`metrics, this`peakInflight
      ensures metrics == old(metrics).Started()
      ensures peakInflight == Max(old(peakInflight), metrics.inflight)
    {
      metrics := metrics.Started();
      var inflight, peak := metrics.inflight, peakInflight;
      var spurious: nat := *;
      while inflight > peak
        invariant peak == peakInflight == old(peakInflight)
        decreases spurious
      {
        if peakInflight == peak && spurious == 0 {
          peakInflight := inflight;
          break;
        }
        peak, spurious := peakInflight, spurious - 1;
      }
    }

    method RecordCompletion(executionTime: int)
      modifies this
      ensures metrics == old(metrics).Completion() && peakInflight == old(peakInflight)
      ensures TimeCounted(executionTime)
    {
      if executionTime > 0 {
        totalExecutionTime := totalExecutionTime + executionTime;
      }
      metrics := metrics.Completion();
      UpdateExtrema(AsUint64(executionTime));
    }

    method UpdateExtrema(time: int)
      modifies this`maxExecutionTime, this`minExecutionTime
      ensures maxExecutionTime == Max(old(maxExecutionTime), time)
      ensures minExecutionTime == Min(old(minExecutionTime), time)
    {
      var currentMax := maxExecutionTime;
      var spurious: nat := *;
      while time > currentMax
        invariant currentMax == maxExecutionTime == old(maxExecutionTime)
        invariant minExecutionTime == old(minExecutionTime)
        decreases spurious
      {
        if maxExecutionTime == currentMax && spurious == 0 {
          maxExecutionTime := time;
          break;
        }
        currentMax, spurious := maxExecutionTime, spurious - 1;
      }
      var currentMin := minExecutionTime;
      spurious := *;
      while time < currentMin
        invariant currentMin == minExecutionTime == old(minExecutionTime)
        invariant maxExecutionTime == Max(old(maxExecutionTime), time)
        decreases spurious
      {
        if minExecutionTime == currentMin && spurious == 0 {
          minExecutionTime := time;
          break;
        }
        currentMin, spurious := minExecutionTime, spurious - 1;
      }
    }

    method RecordFailure()
      modifies this`metrics
      ensures metrics == old(metrics).Failure()
    {
      metrics := metrics.Failure();
    }

    method RecordRetry()
      modifies this`metrics
      ensures metrics == old(metrics).Retry()
    {
      metrics := metrics.Retry();
    }
  }
}

/** The compare-and-swap loops of include/task_engine/performance_monitor.hpp: any number of threads
    raise (or lower) one shared cell towards the values they bring. */
module ExtremumCells {
  type ThreadId = nat

  /** Where a thread is: outside, about to load the cell, or in the loop with the value it last saw. */
  datatype Loop = Outside | Loading(value: nat) | Testing(value: nat, current: nat)

  /** `brought` is history: every value with which a thread has entered. */
  datatype Cell = Cell(up: bool, start: nat, value: nat, threads: map<ThreadId, Loop>, brought: set<nat>)

  datatype Action = Enter(value: nat) | Step(spurious: bool)

  /** a is strictly further than b in the direction of the cell. */
  predicate Beats(up: bool, a: nat, b: nat) {
    if up then a > b else a < b
  }

  ghost predicate Enabled(c: Cell, id: ThreadId, action: Action) {
    id in c.threads && (c.threads[id].Outside? <==> action.Enter?)
  }

  /** One atomic step: the load, or one compare-and-swap with the test before it. A failed
      compare-and-swap reloads the current value. */
  ghost function Apply(c: Cell, id: ThreadId, action: Action): Cell
    requires Enabled(c, id, action)
  {
    match c.threads[id]
    case Outside => c.(threads := c.threads[id := Loading(action.value)], brought := c.brought + {action.value})
    case Loading(v) => c.(threads := c.threads[id := Testing(v, c.value)])
    case Testing(v, current) =>
      if !Beats(c.up, v, current) then c.(threads := c.threads[id := Outside])
      else if !action.spurious && c.value == current then c.(value := v, threads := c.threads[id := Outside])
      else c.(threads := c.threads[id := Testing(v, c.value)])
  }

  ghost predicate Initial(c: Cell) {
    && c.value == c.start && c.brought == {}
    && forall id :: id in c.threads ==> c.threads[id] == Outside
  }

  /** Some thread is still on its way with v. */
  ghost predicate Carried(c: Cell, v: nat) {
    exists id :: id in c.threads && !c.threads[id].Outside? && c.threads[id].value == v
  }

  ghost predicate Inv(c: Cell) {
    && (c.value == c.start || c.value in c.brought)
    && !Beats(c.up, c.start, c.value)
    && (forall v :: v in c.brought ==> !Beats(c.up, v, c.value) || Carried(c, v))
    && (forall id :: id in c.threads && !c.threads[id].Outside? ==> c.threads[id].value in c.brought)
    && (forall id :: id in c.threads && c.threads[id].Testing? ==> !Beats(c.up, c.threads[id].current, c.value))
  }

  /** x is the furthest of the start value and all values brought. */
  ghost predicate IsExtreme(c: Cell, x: nat) {
    && (x == c.start || x in c.brought)
    && !Beats(c.up, c.start, x)
    && forall v :: v in c.brought ==> !Beats(c.up, v, x)
  }

  lemma InitialOk(c: Cell)
    requires Initial(c)
    ensures Inv(c)
  {
  }

  lemma CarriedOn(c: Cell, c': Cell, id: ThreadId, v: nat)
    requires Carried(c, v) && id in c.threads
    requires c'.threads.Keys == c.threads.Keys
    requires forall other :: other in c.threads && other != id ==> c'.threads[other] == c.threads[other]
    requires c.threads[id].Outside? || c.threads[id].value != v
             || (!c'.threads[id].Outside? && c'.threads[id].value == v)
    ensures Carried(c', v)
  {
    var other :| other in c.threads && !c.threads[other].Outside? && c.threads[other].value == v;
    assert other in c'.threads;
  }

  /** The cell only moves in its direction and never past a value brought to it. */
  lemma StepKeeps(c: Cell, id: ThreadId, action: Action)
    requires Inv(c) && Enabled(c, id, action)
    ensures Inv(Apply(c, id, action))
    ensures !Beats(c.up, c.value, Apply(c, id, action).value)
    ensures Apply(c, id, action).value == c.value || Apply(c, id, action).value in c.brought
  {
    var c' := Apply(c, id, action);
    assert id in c'.threads;
    forall v | v in c'.brought
      ensures !Beats(c.up, v, c'.value) || Carried(c', v)
    {
      if c.threads[id].Outside? && v == action.value {
        assert c'.threads[id].value == v;
      } else if Beats(c.up, v, c'.value) {
        assert Carried(c, v);
        CarriedOn(c, c', id, v);
      }
    }
  }

  /** Whenever no thread is inside, the cell is exactly the extreme of all values brought to it. */
  lemma QuietIsExtreme(c: Cell)
    requires Inv(c)
    requires forall id :: id in c.threads ==> c.threads[id] == Outside
    ensures IsExtreme(c, c.value)
    ensures forall x :: IsExtreme(c, x) ==> x == c.value
  {
    forall v | v in c.brought
      ensures !Beats(c.up, v, c.value)
    {
      assert !Carried(c, v);
    }
  }

  // ---- runs

  datatype Move = Move(id: ThreadId, action: Action)

  ghost predicate Legal(c: Cell, moves: seq<Move>)
    decreases |moves|
  {
    moves == [] ||
    (Enabled(c, moves[0].id, moves[0].action) && Legal(Apply(c, moves[0].id, moves[0].action), moves[1..]))
  }

  ghost function After(c: Cell, moves: seq<Move>): Cell
    requires Legal(c, moves)
    decreases |moves|
  {
    if moves == [] then c else After(Apply(c, moves[0].id, moves[0].action), moves[1..])
  }

  lemma {:induction false} RunKeeps(c: Cell, moves: seq<Move>)
    requires Inv(c) && Legal(c, moves)
    ensures Inv(After(c, moves))
    ensures !Beats(c.up, c.value, After(c, moves).value)
    ensures After(c, moves).up == c.up && After(c, moves).start == c.start
    decreases |moves|
  {
    hide Inv, Enabled;
    if moves != [] {
      StepKeeps(c, moves[0].id, moves[0].action);
      RunKeeps(Apply(c, moves[0].id, moves[0].action), moves[1..]);
    }
  }

  /** Exactness under every interleaving, with any number of threads and any spurious failures:
      between two points of a run the cell has only moved in its direction, its value is the start
      value or one brought, and once the threads have left it is the extreme of them all. */
  lemma ExtremumIsExact(c: Cell, first: seq<Move>, second: seq<Move>)
    requires Initial(c) && Legal(c, first) && Legal(After(c, first), second)
    ensures var d, e := After(c, first), After(After(c, first), second);
            && !Beats(c.up, d.value, e.value)
            && (e.value == c.start || e.value in e.brought)
            && ((forall id :: id in e.threads ==> e.threads[id] == Outside) ==> IsExtreme(e, e.value))
  {
    InitialOk(c);
    RunKeeps(c, first);
    RunKeeps(After(c, first), second);
    var e := After(After(c, first), second);
    if forall id :: id in e.threads ==> e.threads[id] == Outside {
      QuietIsExtreme(e);
    }
  }

  // ---- the peak of the tasks in flight

  /** The in-flight counter together with the peak cell; `highest` is history: the largest value
      the counter has had. */
  datatype Peak = Peak(inflight: nat, cell: Cell, highest: nat)

  datatype PeakAction = RecordStart | RecordEnd | Continue(spurious: bool)

  ghost predicate PeakEnabled(p: Peak, id: ThreadId, action: PeakAction) {
    && id in p.cell.threads
    && match action
       case RecordStart => p.cell.threads[id].Outside?
       case RecordEnd => p.cell.threads[id].Outside? && p.inflight > 0
       case Continue(_) => !p.cell.threads[id].Outside?
  }

  /** `record_start` adds one and enters the loop with the sum; a completion or failure takes one off. */
  ghost function PeakApply(p: Peak, id: ThreadId, action: PeakAction): Peak
    requires PeakEnabled(p, id, action)
  {
    match action
    case RecordStart =>
      Peak(p.inflight + 1, Apply(p.cell, id, Enter(p.inflight + 1)),
           if p.inflight + 1 > p.highest then p.inflight + 1 else p.highest)
    case RecordEnd => p.(inflight := p.inflight - 1)
    case Continue(spurious) => p.(cell := Apply(p.cell, id, Step(spurious)))
  }

  ghost predicate PeakInv(p: Peak) {
    && Inv(p.cell) && p.cell.up && p.cell.start == 0
    && p.inflight <= p.highest
    && (p.highest == 0 || p.highest in p.cell.brought)
    && forall v :: v in p.cell.brought ==> v <= p.highest
  }

  lemma PeakStepKeeps(p: Peak, id: ThreadId, action: PeakAction)
    requires PeakInv(p) && PeakEnabled(p, id, action)
    ensures PeakInv(PeakApply(p, id, action))
    ensures p.cell.value <= PeakApply(p, id, action).cell.value && p.highest <= PeakApply(p, id, action).highest
  {
    hide Inv;
    match action
    case RecordStart => StepKeeps(p.cell, id, Enter(p.inflight + 1));
    case RecordEnd =>
    case Continue(spurious) => StepKeeps(p.cell, id, Step(spurious));
  }

  datatype PeakMove = PeakMove(id: ThreadId, action: PeakAction)

  ghost predicate PeakLegal(p: Peak, moves: seq<PeakMove>)
    decreases |moves|
  {
    moves == [] ||
    (PeakEnabled(p, moves[0].id, moves[0].action) && PeakLegal(PeakApply(p, moves[0].id, moves[0].action), moves[1..]))
  }

  ghost function PeakAfter(p: Peak, moves: seq<PeakMove>): Peak
    requires PeakLegal(p, moves)
    decreases |moves|
  {
    if moves == [] then p else PeakAfter(PeakApply(p, moves[0].id, moves[0].action), moves[1..])
  }

  lemma {:induction false} PeakRunKeeps(p: Peak, moves: seq<PeakMove>)
    requires PeakInv(p) && PeakLegal(p, moves)
    ensures PeakInv(PeakAfter(p, moves))
    ensures p.cell.value <= PeakAfter(p, moves).cell.value && p.highest <= PeakAfter(p, moves).highest
    decreases |moves|
  {
    hide PeakInv, PeakEnabled, PeakApply;
    if moves != [] {
      PeakStepKeeps(p, moves[0].id, moves[0].action);
      PeakRunKeeps(PeakApply(p, moves[0].id, moves[0].action), moves[1..]);
    }
  }

  /** Nobody inside, nothing in flight. */
  ghost function NewPeak(threads: set<ThreadId>): Peak {
    Peak(0, Cell(true, 0, 0, map id | id in threads :: Outside, {}), 0)
  }

  /** Between two points of a run the recorded peak does not decrease; it never exceeds the highest
      number of tasks there were in flight at once, and equals it whenever no thread is inside
      `record_start`. */
  lemma PeakIsExact(threads: set<ThreadId>, first: seq<PeakMove>, second: seq<PeakMove>)
    requires PeakLegal(NewPeak(threads), first) && PeakLegal(PeakAfter(NewPeak(threads), first), second)
    ensures var p := PeakAfter(NewPeak(threads), first);
            var q := PeakAfter(p, second);
            && p.cell.value <= q.cell.value <= q.highest
            && ((forall id :: id in q.cell.threads ==> q.cell.threads[id] == Outside) ==> q.cell.value == q.highest)
  {
    PeakRunKeeps(NewPeak(threads), first);
    var p := PeakAfter(NewPeak(threads), first);
    PeakRunKeeps(p, second);
    var q := PeakAfter(p, second);
    if forall id :: id in q.cell.threads ==> q.cell.threads[id] == Outside {
      QuietIsExtreme(q.cell);
    }
  }
}
