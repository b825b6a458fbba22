/** include/task_engine/task_executor.hpp: the executor's graph is the one its submissions spell out. */
module LifecycleLog {
  import opened Tasks
  import opened Cycles
  import opened GraphModel
  import opened Lifecycle
  import opened LifecycleRuns
  import opened LifecycleSafety
  import opened LifecycleAnswers

  function Links(t: TaskId, ds: seq<TaskId>): seq<Edit> {
    if ds == [] then [] else [Depended(t, ds[0])] + Links(t, ds[1..])
  }

  /** `add_task` followed by one `add_dependency` for each entry of the list. */
  function Edits(id: TaskId, step: Step): seq<Edit> {
    match step
    case Submit(ds, maxRetries) => [Added(id, maxRetries)] + Links(id, ds)
    case _ => []
  }

  function Submissions(steps: seq<Step>): nat {
    if steps == [] then 0 else Submissions(steps[..|steps| - 1]) + if steps[|steps| - 1].Submit? then 1 else 0
  }

  /** The edit log, read off the steps alone: ids are handed out in turn, from one. */
  function Log(steps: seq<Step>): seq<Edit> {
    if steps == [] then [] else
      Log(steps[..|steps| - 1]) + Edits(1 + Submissions(steps[..|steps| - 1]), steps[|steps| - 1])
  }

  ghost predicate SameDeps(g: Graph, h: Graph) {
    DepsOf(g) == DepsOf(h)
  }

  lemma BuiltMore(edits: seq<Edit>, edit: Edit)
    ensures Built(edits + [edit]) == Edited(Built(edits), edit)
  {
    assert (edits + [edit])[..|edits|] == edits;
  }

  lemma {:induction false} LinksBuild(edits: seq<Edit>, t: TaskId, ds: seq<TaskId>)
    ensures Built(edits + Links(t, ds)) == AddDependencies(Built(edits), t, ds)
    decreases |ds|
  {
    hide Built, AddDependency;
    if ds == [] {
      assert edits + Links(t, ds) == edits;
    } else {
      BuiltMore(edits, Depended(t, ds[0]));
      assert edits + Links(t, ds) == edits + [Depended(t, ds[0])] + Links(t, ds[1..]);
      LinksBuild(edits + [Depended(t, ds[0])], t, ds[1..]);
    }
  }

  lemma SubmissionDeps(s: State, ds: seq<TaskId>, maxRetries: nat)
    requires Inv(s)
    ensures var g' := Apply(s, Submit(ds, maxRetries)).graph;
            && g'.Keys == s.graph.Keys + {s.nextId}
            && g'[s.nextId].dependencies == Known(AddTask(s.graph, s.nextId, maxRetries), ds)
            && (forall u :: u in s.graph ==> g'[u].dependencies == s.graph[u].dependencies)
  {
    RecordedAt(s, ds, maxRetries);
    hide WellFormed, DependenciesFirst, TasksOk, Recorded;
  }

  lemma SubmissionEdits(edits: seq<Edit>, id: TaskId, ds: seq<TaskId>, maxRetries: nat)
    requires id !in Built(edits)
    ensures var h, h' := Built(edits), Built(edits + Edits(id, Submit(ds, maxRetries)));
            && h'.Keys == h.Keys + {id}
            && h'[id].dependencies == Known(AddTask(h, id, maxRetries), ds)
            && (forall u :: u in h ==> h'[u].dependencies == h[u].dependencies)
  {
    hide Built, AddDependencies;
    BuiltMore(edits, Added(id, maxRetries));
    LinksBuild(edits + [Added(id, maxRetries)], id, ds);
    assert edits + Edits(id, Submit(ds, maxRetries)) == edits + [Added(id, maxRetries)] + Links(id, ds);
    var h1 := AddTask(Built(edits), id, maxRetries);
    AddDependenciesKeys(h1, id, ds);
    AddDependenciesAt(h1, id, ds);
    forall u | u in Built(edits)
      ensures AddDependencies(h1, id, ds)[u].dependencies == h1[u].dependencies
    {
      AddDependenciesElsewhere(h1, id, ds, u);
    }
  }

  lemma SameWhenEqual(g: Graph, h: Graph)
    requires g.Keys == h.Keys && forall u :: u in g ==> g[u].dependencies == h[u].dependencies
    ensures SameDeps(g, h)
  {
  }

  /** Building a submission's edits changes dependencies as the step does. */
  lemma SubmissionBuilds(s: State, edits: seq<Edit>, ds: seq<TaskId>, maxRetries: nat)
    requires Inv(s) && SameDeps(s.graph, Built(edits))
    ensures SameDeps(Apply(s, Submit(ds, maxRetries)).graph, Built(edits + Edits(s.nextId, Submit(ds, maxRetries))))
  {
    hide Inv, Built, Apply, Known, Edits, SameDeps;
    KnownSame(s, Built(edits));
    KnownSameKeys(AddTask(s.graph, s.nextId, maxRetries), AddTask(Built(edits), s.nextId, maxRetries), ds);
    SubmissionDeps(s, ds, maxRetries);
    SubmissionEdits(edits, s.nextId, ds, maxRetries);
    SameWhenEqual(Apply(s, Submit(ds, maxRetries)).graph, Built(edits + Edits(s.nextId, Submit(ds, maxRetries))));
  }

  lemma KnownSame(s: State, h: Graph)
    requires Inv(s) && SameDeps(s.graph, h)
    ensures s.graph.Keys == h.Keys && s.nextId !in h
    ensures forall u :: u in h ==> h[u].dependencies == s.graph[u].dependencies
  {
    assert s.graph.Keys == DepsOf(s.graph).Keys;
    assert h.Keys == DepsOf(h).Keys;
    forall u | u in h
      ensures h[u].dependencies == s.graph[u].dependencies
    {
      assert DepsOf(h)[u] == DepsOf(s.graph)[u];
    }
  }

  lemma OtherStepsKeepDeps(s: State, step: Step)
    requires Inv(s) && Enabled(s, step) && !step.Submit?
    ensures Apply(s, step).graph.Keys == s.graph.Keys
    ensures forall t :: t in s.graph ==> Apply(s, step).graph[t].dependencies == s.graph[t].dependencies
  {
    hide Inv, Apply, Enabled;
    StepGraphKeys(s, step);
    forall t | t in s.graph
      ensures Apply(s, step).graph[t].dependencies == s.graph[t].dependencies
    {
      StepKeepsAt(s, step, t);
    }
  }

  lemma NoEdits(edits: seq<Edit>, id: TaskId, step: Step)
    requires !step.Submit?
    ensures edits + Edits(id, step) == edits
  {
  }

  lemma OtherStepsBuildNothing(s: State, edits: seq<Edit>, step: Step)
    requires Inv(s) && Enabled(s, step) && !step.Submit? && SameDeps(s.graph, Built(edits))
    ensures SameDeps(Apply(s, step).graph, Built(edits + Edits(s.nextId, step)))
  {
    hide Inv, Apply, Enabled, Built, Edits, SameDeps;
    NoEdits(edits, s.nextId, step);
    OtherStepsKeepDeps(s, step);
    KnownSame(s, Built(edits));
    SameWhenEqual(Apply(s, step).graph, Built(edits));
  }

  // ---- each id once

  lemma {:induction false} LinksAddNothing(t: TaskId, ds: seq<TaskId>)
    ensures forall i :: 0 <= i < |Links(t, ds)| ==> !Links(t, ds)[i].Added?
    decreases |ds|
  {
    if ds != [] {
      LinksAddNothing(t, ds[1..]);
    }
  }

  lemma FreshGrows(edits: seq<Edit>, id: TaskId, step: Step)
    requires FreshIds(edits) && !Lives(edits, id)
    ensures FreshIds(edits + Edits(id, step))
  {
    var all := edits + Edits(id, step);
    if step.Submit? {
      LinksAddNothing(id, step.dependencies);
    }
    forall i | 0 <= i < |all| && all[i].Added?
      ensures !Lives(all[..i], all[i].id)
    {
      if i < |edits| {
        assert all[..i] == edits[..i];
      } else {
        assert all[i] == Edits(id, step)[i - |edits|];
        assert all[..i] == edits;
      }
    }
  }

  /** The executor hands out each id once: no run adds a task under an id in use. And its graph is
      the one that the edits of its submissions build. */
  lemma {:induction false} RunBuildsItsLog(states: seq<State>, steps: seq<Step>)
    requires Run(states, steps)
    ensures FreshIds(Log(steps)) && states[|steps|].nextId == 1 + Submissions(steps)
    ensures SameDeps(states[|steps|].graph, Built(Log(steps)))
    decreases |steps|
  {
    hide Inv, Apply, Enabled, Built, Lives, FreshIds, SameDeps, Edits;
    var n := |steps|;
    if n == 0 {
      NothingBuilt();
    } else {
      RunPrefix(states, steps);
      RunBuildsItsLog(states[..n], steps[..n - 1]);
      RunOk(states, steps, n - 1);
      assert StepAtIndex(states, steps, n - 1);
      var s, step, edits := states[n - 1], steps[n - 1], Log(steps[..n - 1]);
      StepExtends(s, step);
      NextIsFree(s, edits);
      FreshGrows(edits, s.nextId, step);
      match step
      case Submit(ds, maxRetries) => SubmissionBuilds(s, edits, ds, maxRetries);
      case _ => OtherStepsBuildNothing(s, edits, step);
    }
  }

  lemma NothingBuilt()
    ensures FreshIds([]) && SameDeps(INITIAL.graph, Built([]))
  {
  }

  lemma NextIsFree(s: State, edits: seq<Edit>)
    requires Inv(s) && FreshIds(edits) && SameDeps(s.graph, Built(edits))
    ensures !Lives(edits, s.nextId)
  {
    FreshIsSafe(edits);
    GraphIsItsLog(edits);
    hide SafeIds, FreshIds, Built;
    KnownSame(s, Built(edits));
  }

  /** The graph of a running executor, read off the submissions: its tasks are those added, and each
      has the dependency entries its submission named among the tasks there at the time, itself
      included, however often, and whatever has happened to them since. */
  lemma RunGraphIsItsLog(states: seq<State>, steps: seq<Step>)
    requires Run(states, steps)
    ensures var g := states[|steps|].graph;
            && (forall t :: t in g <==> Lives(Log(steps), t))
            && (forall t, d :: t in g && d in g ==> Edges(g, t, d) == TimesLinked(Log(steps), t, d))
  {
    var g, edits := states[|steps|].graph, Log(steps);
    hide Inv, Apply, Enabled, Log;
    RunBuildsItsLog(states, steps);
    FreshIsSafe(edits);
    GraphIsItsLog(edits);
    RunOk(states, steps, |steps|);
    hide SafeIds, FreshIds, Built;
    KnownSame(states[|steps|], Built(edits));
  }

  /** A submission's id, list and retry budget stay what the caller asked for. */
  lemma RunBudget(states: seq<State>, steps: seq<Step>, i: nat)
    requires Run(states, steps) && i < |steps| && steps[i].Submit?
    ensures var t, g := states[i].nextId, states[|steps|].graph;
            t == 1 + Submissions(steps[..i]) && t in g && g[t].maxRetries == steps[i].maxRetries
  {
    hide Inv, Apply, Enabled;
    RunOk(states, steps, i);
    assert StepAtIndex(states, steps, i);
    NewBudget(states[i], steps[i].dependencies, steps[i].maxRetries);
    RunKeeps(states, steps, i + 1, |steps|);
    RunFront(states, steps, i);
    RunBuildsItsLog(states[..i + 1], steps[..i]);
    assert KeepsTask(states[i + 1], states[|steps|], states[i].nextId);
  }

  lemma RunFront(states: seq<State>, steps: seq<Step>, i: nat)
    requires Run(states, steps) && i <= |steps|
    ensures Run(states[..i + 1], steps[..i])
  {
    hide Apply, Enabled;
    var states', steps' := states[..i + 1], steps[..i];
    forall j | 0 <= j < |steps'|
      ensures StepAtIndex(states', steps', j)
    {
      assert StepAtIndex(states, steps, j);
    }
  }

  /** So a task is started at most once more than its submission allowed retries, and exactly so often if
      it has finished and no attempt of it succeeded. */
  lemma StartsAreAsAsked(states: seq<State>, steps: seq<Step>, i: nat)
    requires Run(states, steps) && i < |steps| && steps[i].Submit?
    ensures var t := states[i].nextId;
            && Starts(steps, t) <= steps[i].maxRetries + 1
            && (t in states[|steps|].terminal && Return(t, true) !in steps ==>
                  Starts(steps, t) == steps[i].maxRetries + 1 && t in states[|steps|].graph
                  && states[|steps|].graph[t].status.Failed?)
  {
    hide Inv, Apply, Enabled, Starts;
    var t := states[i].nextId;
    RunBudget(states, steps, i);
    AttemptsBound(states, steps, t);
    if t in states[|steps|].terminal && Return(t, true) !in steps {
      FailuresUseTheWholeBudget(states, steps, t);
    }
  }
}
