/** The dependency graph as a value: what each mutator of DependencyGraph does to the tasks, and
    the representation invariant all of them keep. */
module GraphModel {
  import opened Sequences
  import opened Tasks
  import opened Cycles

  type Graph = map<TaskId, TaskView>

  ghost function DepsOf(g: Graph): Deps {
    map t | t in g :: g[t].dependencies
  }

  /** The number of edges "t depends on d" recorded at t. */
  function Edges(g: Graph, t: TaskId, d: TaskId): nat
    requires t in g
  {
    multiset(g[t].dependencies)[d]
  }

  /** The number of edges "t depends on d" recorded at d. */
  function BackEdges(g: Graph, t: TaskId, d: TaskId): nat
    requires d in g
  {
    multiset(g[d].dependents)[t]
  }

  /** The triggers keep the invariant from unfolding where it is only passed along. */
  ghost predicate EndpointsLive(g: Graph) {
    forall t {:trigger NeighboursLive(g, t)} :: t in g ==> NeighboursLive(g, t)
  }

  ghost predicate NeighboursLive(g: Graph, t: TaskId)
    requires t in g
  {
    forall u :: u in g[t].dependencies || u in g[t].dependents ==> u in g
  }

  /** Every edge is recorded at both ends, with the same multiplicity. */
  ghost predicate Mirrored(g: Graph) {
    forall t, d {:trigger EdgeMirrored(g, t, d)} :: t in g && d in g ==> EdgeMirrored(g, t, d)
  }

  ghost predicate EdgeMirrored(g: Graph, t: TaskId, d: TaskId)
    requires t in g && d in g
  {
    Edges(g, t, d) == BackEdges(g, t, d)
  }

  ghost predicate WellFormed(g: Graph) {
    EndpointsLive(g) && Mirrored(g)
  }

  /** Before any completion is delivered, the counter is the number of dependency entries. */
  ghost predicate Unnotified(g: Graph) {
    forall t :: t in g ==> g[t].dependenciesCount == |g[t].dependencies|
  }

  // ---- mutators

  function AddTask(g: Graph, id: TaskId, maxRetries: nat): Graph {
    g[id := NewTask(maxRetries)]
  }

  function AddDependency(g: Graph, t: TaskId, d: TaskId): Graph {
    if t !in g || d !in g then g else
      var g' := g[t := g[t].(dependencies := g[t].dependencies + [d], dependenciesCount := g[t].dependenciesCount + 1)];
      g'[d := g'[d].(dependents := g'[d].dependents + [t])]
  }

  function AddDependencies(g: Graph, t: TaskId, ds: seq<TaskId>): Graph {
    if ds == [] then g else AddDependencies(AddDependency(g, t, ds[0]), t, ds[1..])
  }

  /** A task that forgets id, of which it had k dependency entries. */
  function Unlinked(v: TaskView, id: TaskId, k: nat): TaskView {
    v.(dependencies := Without(v.dependencies, id),
       dependents := Without(v.dependents, id),
       dependenciesCount := v.dependenciesCount - k)
  }

  function RemoveTask(g: Graph, id: TaskId): Graph {
    map t | t in g && t != id :: Unlinked(g[t], id, Edges(g, t, id))
  }

  function NotifyCompleted(g: Graph, id: TaskId): Graph {
    if id !in g then g else
      map t | t in g :: g[t].Notified(BackEdges(g, t, id))
  }

  /** The entries of ds that `add_dependency` does not skip. */
  function Known(g: Graph, ds: seq<TaskId>): seq<TaskId> {
    if ds == [] then [] else (if ds[0] in g then [ds[0]] else []) + Known(g, ds[1..])
  }

  // ---- the invariant

  lemma AddTaskKeeps(g: Graph, id: TaskId, maxRetries: nat)
    requires WellFormed(g)
    requires id !in g
    ensures WellFormed(AddTask(g, id, maxRetries))
    ensures Unnotified(g) ==> Unnotified(AddTask(g, id, maxRetries))
  {
    var g' := AddTask(g, id, maxRetries);
    forall t | t in g'
      ensures NeighboursLive(g', t)
    {
      assert t in g ==> NeighboursLive(g, t);
    }
    forall t, d | t in g' && d in g'
      ensures EdgeMirrored(g', t, d)
    {
      assert t in g ==> NeighboursLive(g, t);
      assert d in g ==> NeighboursLive(g, d);
      assert t in g && d in g ==> EdgeMirrored(g, t, d);
    }
  }

  /** Re-using a live id drops the edges of the task that held it: `add_task` keeps the invariant
      exactly when the id is new or names a task without edges to other tasks. */
  lemma AddTaskKeepsIff(g: Graph, id: TaskId, maxRetries: nat)
    requires WellFormed(g)
    ensures WellFormed(AddTask(g, id, maxRetries)) <==>
            (id in g ==> forall u :: u in g[id].dependencies || u in g[id].dependents ==> u == id)
  {
    var g' := AddTask(g, id, maxRetries);
    if id !in g {
      AddTaskKeeps(g, id, maxRetries);
    } else {
      assert NeighboursLive(g, id);
      if WellFormed(g') {
        forall u | u in g[id].dependencies || u in g[id].dependents
          ensures u == id
        {
          assert EdgeMirrored(g, id, u) && EdgeMirrored(g, u, id);
          assert EdgeMirrored(g', id, u) && EdgeMirrored(g', u, id);
        }
      }
      if forall u :: u in g[id].dependencies || u in g[id].dependents ==> u == id {
        AddTaskOverIsolated(g, id, maxRetries);
      }
    }
  }

  lemma AddTaskOverIsolated(g: Graph, id: TaskId, maxRetries: nat)
    requires WellFormed(g)
    requires id in g && forall u :: u in g[id].dependencies || u in g[id].dependents ==> u == id
    ensures WellFormed(AddTask(g, id, maxRetries))
  {
    var g' := AddTask(g, id, maxRetries);
    forall t | t in g'
      ensures NeighboursLive(g', t)
    {
      assert NeighboursLive(g, t);
    }
    forall t, d | t in g' && d in g'
      ensures EdgeMirrored(g', t, d)
    {
      assert EdgeMirrored(g, t, d);
      assert EdgeMirrored(g, d, t);
      assert d in g[t].dependencies <==> Edges(g, t, d) > 0;
      assert t in g[d].dependents <==> BackEdges(g, t, d) > 0;
    }
  }

  lemma AddDependencyEdges(g: Graph, t: TaskId, d: TaskId, a: TaskId, b: TaskId)
    requires t in g && d in g && a in g && b in g
    ensures var one := if a == t && b == d then 1 else 0;
            && Edges(AddDependency(g, t, d), a, b) == Edges(g, a, b) + one
            && BackEdges(AddDependency(g, t, d), a, b) == BackEdges(g, a, b) + one
  {
    assert multiset(g[t].dependencies + [d]) == multiset(g[t].dependencies) + multiset{d};
    assert multiset(g[d].dependents + [t]) == multiset(g[d].dependents) + multiset{t};
  }

  lemma AddDependencyKeeps(g: Graph, t: TaskId, d: TaskId)
    requires WellFormed(g)
    ensures WellFormed(AddDependency(g, t, d))
    ensures Unnotified(g) ==> Unnotified(AddDependency(g, t, d))
    ensures t in g && d in g ==> Edges(AddDependency(g, t, d), t, d) == Edges(g, t, d) + 1
  {
    if t in g && d in g {
      var g' := AddDependency(g, t, d);
      AddDependencyEdges(g, t, d, t, d);
      forall a, b | a in g' && b in g'
        ensures EdgeMirrored(g', a, b)
      {
        assert EdgeMirrored(g, a, b);
        AddDependencyEdges(g, t, d, a, b);
      }
      forall a | a in g'
        ensures NeighboursLive(g', a)
      {
        assert NeighboursLive(g, a);
      }
    }
  }

  lemma {:induction false} AddDependenciesKeeps(g: Graph, t: TaskId, ds: seq<TaskId>)
    requires WellFormed(g)
    ensures WellFormed(AddDependencies(g, t, ds))
    ensures Unnotified(g) ==> Unnotified(AddDependencies(g, t, ds))
  {
    if ds != [] {
      AddDependencyKeeps(g, t, ds[0]);
      AddDependenciesKeeps(AddDependency(g, t, ds[0]), t, ds[1..]);
    }
  }

  lemma RemoveTaskEdges(g: Graph, id: TaskId, t: TaskId)
    requires t in g && t != id
    ensures var v := RemoveTask(g, id)[t];
            && multiset(v.dependencies) == multiset(g[t].dependencies)[id := 0]
            && multiset(v.dependents) == multiset(g[t].dependents)[id := 0]
            && |v.dependencies| == |g[t].dependencies| - Edges(g, t, id)
  {
    WithoutContents(g[t].dependencies, id);
    WithoutContents(g[t].dependents, id);
  }

  lemma RemoveTaskKeepsMirror(g: Graph, id: TaskId)
    requires Mirrored(g)
    ensures Mirrored(RemoveTask(g, id))
    ensures forall t, d :: t in g && d in g && t != id && d != id ==> Edges(RemoveTask(g, id), t, d) == Edges(g, t, d)
  {
    var g' := RemoveTask(g, id);
    forall t, d | t in g' && d in g'
      ensures EdgeMirrored(g', t, d) && Edges(g', t, d) == Edges(g, t, d)
    {
      RemoveTaskEdges(g, id, t);
      RemoveTaskEdges(g, id, d);
      assert EdgeMirrored(g, t, d);
    }
  }

  lemma RemoveTaskKeepsEndpoints(g: Graph, id: TaskId)
    requires EndpointsLive(g)
    ensures EndpointsLive(RemoveTask(g, id))
  {
    var g' := RemoveTask(g, id);
    forall t | t in g'
      ensures NeighboursLive(g', t)
    {
      assert NeighboursLive(g, t);
      WithoutContents(g[t].dependencies, id);
      WithoutContents(g[t].dependents, id);
    }
  }

  /** Nothing differs but edges and the counter. */
  predicate KeptFlags(v: TaskView, w: TaskView) {
    && w.status == v.status && w.cancelled == v.cancelled && w.enqueued == v.enqueued
    && w.attempts == v.attempts && w.maxRetries == v.maxRetries
  }

  lemma RemoveTaskKeeps(g: Graph, id: TaskId)
    requires WellFormed(g)
    requires id in g
    ensures WellFormed(RemoveTask(g, id))
    ensures Unnotified(g) ==> Unnotified(RemoveTask(g, id))
    ensures RemoveTask(g, id).Keys == g.Keys - {id}
    ensures forall t :: t in g && t != id ==> KeptFlags(g[t], RemoveTask(g, id)[t])
    ensures forall t, d :: t in g && d in g && t != id && d != id ==> Edges(RemoveTask(g, id), t, d) == Edges(g, t, d)
  {
    RemoveTaskKeepsMirror(g, id);
    RemoveTaskKeepsEndpoints(g, id);
    if Unnotified(g) {
      forall t | t in RemoveTask(g, id)
        ensures RemoveTask(g, id)[t].dependenciesCount == |RemoveTask(g, id)[t].dependencies|
      {
        RemoveTaskEdges(g, id, t);
      }
    }
  }

  lemma NotifyCompletedKeeps(g: Graph, id: TaskId)
    requires WellFormed(g)
    ensures WellFormed(NotifyCompleted(g, id))
  {
    var g' := NotifyCompleted(g, id);
    forall t | t in g'
      ensures NeighboursLive(g', t)
    {
      assert NeighboursLive(g, t);
    }
    forall t, d | t in g' && d in g'
      ensures EdgeMirrored(g', t, d)
    {
      assert EdgeMirrored(g, t, d);
    }
  }

  /** w is v except that v's dependents may be followed by entries t, and, for t itself, the
      dependencies and the counter may differ. */
  ghost predicate OnlyEdgesOf(t: TaskId, u: TaskId, v: TaskView, w: TaskView) {
    && ExtendedBy(t, v.dependents, w.dependents)
    && w == v.(dependencies := w.dependencies, dependents := w.dependents, dependenciesCount := w.dependenciesCount)
    && (u != t ==> w.dependencies == v.dependencies && w.dependenciesCount == v.dependenciesCount)
  }

  ghost predicate ExtendedBy(t: TaskId, a: seq<TaskId>, b: seq<TaskId>) {
    && |a| <= |b|
    && (forall k :: 0 <= k < |a| ==> b[k] == a[k])
    && (forall k :: |a| <= k < |b| ==> b[k] == t)
  }

  lemma {:induction false} AddDependenciesKeys(g: Graph, t: TaskId, ds: seq<TaskId>)
    ensures AddDependencies(g, t, ds).Keys == g.Keys
  {
    if ds != [] {
      AddDependenciesKeys(AddDependency(g, t, ds[0]), t, ds[1..]);
    }
  }

  /** What a run of `add_dependency` calls leaves at one task u: at most back edges to t. */
  lemma {:induction false} AddDependenciesElsewhere(g: Graph, t: TaskId, ds: seq<TaskId>, u: TaskId)
    requires t in g && u in g
    ensures u in AddDependencies(g, t, ds) && OnlyEdgesOf(t, u, g[u], AddDependencies(g, t, ds)[u])
  {
    if ds != [] {
      AddDependenciesElsewhere(AddDependency(g, t, ds[0]), t, ds[1..], u);
    }
  }

  /** What it leaves at t: the known entries at the end of t's dependencies, in order, and one
      count for each. */
  lemma {:induction false} AddDependenciesAt(g: Graph, t: TaskId, ds: seq<TaskId>)
    requires t in g
    ensures t in AddDependencies(g, t, ds)
    ensures AddDependencies(g, t, ds)[t].dependencies == g[t].dependencies + Known(g, ds)
    ensures AddDependencies(g, t, ds)[t].dependenciesCount == g[t].dependenciesCount + |Known(g, ds)|
  {
    if ds == [] {
      assert g[t].dependencies + [] == g[t].dependencies;
    } else {
      var g1 := AddDependency(g, t, ds[0]);
      AddDependenciesAt(g1, t, ds[1..]);
      KnownSameKeys(g, g1, ds[1..]);
      var first := if ds[0] in g then [ds[0]] else [];
      assert g1[t].dependencies == g[t].dependencies + first;
      assert (g[t].dependencies + first) + Known(g, ds[1..]) == g[t].dependencies + (first + Known(g, ds[1..]));
    }
  }

  lemma {:induction false} KnownSameKeys(g: Graph, h: Graph, ds: seq<TaskId>)
    requires g.Keys == h.Keys
    ensures Known(g, ds) == Known(h, ds)
  {
    if ds != [] {
      assert ds[0] in g <==> ds[0] in h;
      KnownSameKeys(g, h, ds[1..]);
    }
  }

  lemma {:induction false} WithoutExtension(t: TaskId, a: seq<TaskId>, b: seq<TaskId>)
    requires ExtendedBy(t, a, b)
    requires t !in a
    ensures Without(b, t) == a
  {
    if |b| == |a| {
      assert b == a;
      WithoutAbsent(a, t);
    } else {
      var last := |b| - 1;
      WithoutExtension(t, a, b[..last]);
      assert b == b[..last] + [t];
      WithoutConcat(b[..last], [t], t);
    }
  }

  /** Removing the task last submitted undoes its submission, whatever its dependency list named:
      duplicates, unknown ids or itself. */
  lemma RemoveUndoesSubmission(g: Graph, t: TaskId, maxRetries: nat, ds: seq<TaskId>)
    requires WellFormed(g)
    requires t !in g
    ensures RemoveTask(AddDependencies(AddTask(g, t, maxRetries), t, ds), t) == g
  {
    var g2 := AddDependencies(AddTask(g, t, maxRetries), t, ds);
    AddDependenciesKeys(AddTask(g, t, maxRetries), t, ds);
    forall u | u in g
      ensures RemoveTask(g2, t)[u] == g[u]
    {
      RemoveUndoesSubmissionAt(g, t, maxRetries, ds, u);
    }
    assert RemoveTask(g2, t).Keys == g.Keys;
  }

  lemma RemoveUndoesSubmissionAt(g: Graph, t: TaskId, maxRetries: nat, ds: seq<TaskId>, u: TaskId)
    requires EndpointsLive(g)
    requires t !in g && u in g
    ensures u in RemoveTask(AddDependencies(AddTask(g, t, maxRetries), t, ds), t)
    ensures RemoveTask(AddDependencies(AddTask(g, t, maxRetries), t, ds), t)[u] == g[u]
  {
    var g2 := AddDependencies(AddTask(g, t, maxRetries), t, ds);
    AddDependenciesElsewhere(AddTask(g, t, maxRetries), t, ds, u);
    assert NeighboursLive(g, u);
    WithoutExtension(t, g[u].dependents, g2[u].dependents);
    WithoutAbsent(g[u].dependencies, t);
    assert Edges(g2, u, t) == 0;
  }

  // ---- every graph that can be built

  datatype Edit = Added(id: TaskId, maxRetries: nat) | Depended(task: TaskId, dependency: TaskId) | Removed(id: TaskId)

  function Edited(g: Graph, edit: Edit): Graph {
    match edit
    case Added(id, maxRetries) => AddTask(g, id, maxRetries)
    case Depended(t, d) => AddDependency(g, t, d)
    case Removed(id) => if id in g then RemoveTask(g, id) else g
  }

  function Built(edits: seq<Edit>): Graph {
    if edits == [] then map[] else Edited(Built(edits[..|edits| - 1]), edits[|edits| - 1])
  }

  /** Read off the log alone: t was added and not removed since. */
  predicate Lives(edits: seq<Edit>, t: TaskId) {
    edits != [] &&
    match edits[|edits| - 1]
    case Added(id, _) => id == t || Lives(edits[..|edits| - 1], t)
    case Depended(_, _) => Lives(edits[..|edits| - 1], t)
    case Removed(id) => id != t && Lives(edits[..|edits| - 1], t)
  }

  /** Read off the log alone: how often "t depends on d" was recorded since both were added. */
  function TimesLinked(edits: seq<Edit>, t: TaskId, d: TaskId): nat {
    if edits == [] then 0 else
      var before := edits[..|edits| - 1];
      match edits[|edits| - 1]
      case Added(id, _) => if id == t || id == d then 0 else TimesLinked(before, t, d)
      case Depended(a, b) =>
        TimesLinked(before, t, d) + if a == t && b == d && Lives(before, t) && Lives(before, d) then 1 else 0
      case Removed(id) => if id == t || id == d then 0 else TimesLinked(before, t, d)
  }

  /** Read off the log alone: id is new, or the task under it has edges to no other task. */
  ghost predicate SafeAdd(before: seq<Edit>, id: TaskId) {
    Lives(before, id) ==>
      forall u :: Lives(before, u) && u != id ==> TimesLinked(before, id, u) == 0 && TimesLinked(before, u, id) == 0
  }

  ghost predicate SafeIds(edits: seq<Edit>) {
    forall i :: 0 <= i < |edits| && edits[i].Added? ==> SafeAdd(edits[..i], edits[i].id)
  }

  /** The executor hands out each id once, so no live id is added again. */
  ghost predicate FreshIds(edits: seq<Edit>) {
    forall i :: 0 <= i < |edits| && edits[i].Added? ==> !Lives(edits[..i], edits[i].id)
  }

  lemma FreshIsSafe(edits: seq<Edit>)
    requires FreshIds(edits)
    ensures SafeIds(edits)
  {
  }

  ghost predicate MatchesLog(g: Graph, edits: seq<Edit>) {
    && WellFormed(g) && Unnotified(g)
    && (forall t :: t in g <==> Lives(edits, t))
    && (forall t, d :: t in g && d in g ==> Edges(g, t, d) == TimesLinked(edits, t, d))
  }

  /** The graph that a log without unsafe reuse of an id builds is well formed, counts its dependency
      entries correctly, and holds exactly the edges the log records, duplicates and self-loops
      included. */
  lemma {:induction false} GraphIsItsLog(edits: seq<Edit>)
    requires SafeIds(edits)
    ensures MatchesLog(Built(edits), edits)
  {
    if edits != [] {
      var n := |edits| - 1;
      var before, edit := edits[..n], edits[n];
      assert forall i :: 0 <= i < n ==> edits[..i] == before[..i];
      GraphIsItsLog(before);
      EditKeeps(before, edit);
      assert edits == before + [edit];
    }
  }

  /** Every graph along the way is well formed if and only if no id is reused unsafely, which the log
      shows before each addition. */
  lemma {:induction false} BuiltWellFormedIff(edits: seq<Edit>)
    ensures (forall i :: 0 <= i <= |edits| ==> WellFormed(Built(edits[..i]))) <==> SafeIds(edits)
  {
    if SafeIds(edits) {
      forall i | 0 <= i <= |edits|
        ensures WellFormed(Built(edits[..i]))
      {
        assert forall j :: 0 <= j < i ==> edits[..i][..j] == edits[..j];
        GraphIsItsLog(edits[..i]);
      }
    }
    if forall i :: 0 <= i <= |edits| ==> WellFormed(Built(edits[..i])) {
      WellFormedIsSafe(edits);
    }
  }

  /** Such a log: task 1 is added again while task 2 depends on it, and what task 2 has recorded is
      recorded at task 1 no longer. */
  lemma ReuseBreaksTheGraph()
    ensures var edits := [Added(1, 0), Added(2, 0), Depended(2, 1), Added(1, 0)];
            !SafeIds(edits) && !WellFormed(Built(edits))
  {
    var e1, e2, e3, e4 := [Added(1, 0)], [Added(1, 0), Added(2, 0)], [Added(1, 0), Added(2, 0), Depended(2, 1)],
                          [Added(1, 0), Added(2, 0), Depended(2, 1), Added(1, 0)];
    assert e4[..3] == e3 && e3[..2] == e2 && e2[..1] == e1 && e1[..0] == [];
    assert Built(e3)[2].dependencies == [1];
    assert !EdgeMirrored(Built(e4), 2, 1);
    if SafeIds(e4) {
      GraphIsItsLog(e4);
    }
  }

  lemma {:induction false} WellFormedIsSafe(edits: seq<Edit>)
    requires forall i :: 0 <= i <= |edits| ==> WellFormed(Built(edits[..i]))
    ensures SafeIds(edits)
  {
    if edits != [] {
      var n := |edits| - 1;
      var before, edit := edits[..n], edits[n];
      forall i | 0 <= i <= n
        ensures before[..i] == edits[..i] && WellFormed(Built(before[..i]))
      {
        assert before[..i] == edits[..i];
      }
      WellFormedIsSafe(before);
      GraphIsItsLog(before);
      if edit.Added? {
        assert edits[..n + 1] == edits;
        assert WellFormed(AddTask(Built(before), edit.id, edit.maxRetries));
        SafeAddIff(before, edit.id, edit.maxRetries);
      }
    }
  }

  lemma SafeAddIff(before: seq<Edit>, id: TaskId, maxRetries: nat)
    requires MatchesLog(Built(before), before)
    ensures WellFormed(AddTask(Built(before), id, maxRetries)) <==> SafeAdd(before, id)
  {
    var g := Built(before);
    AddTaskKeepsIff(g, id, maxRetries);
    if id in g {
      forall u
        ensures (u in g[id].dependencies || u in g[id].dependents) && u != id <==>
                u in g && u != id && (TimesLinked(before, id, u) > 0 || TimesLinked(before, u, id) > 0)
      {
        assert NeighboursLive(g, id);
        if u in g {
          assert EdgeMirrored(g, u, id);
        }
      }
    }
  }

  lemma AddedEdges(before: seq<Edit>, id: TaskId, maxRetries: nat, t: TaskId, d: TaskId)
    requires MatchesLog(Built(before), before) && SafeAdd(before, id)
    requires t in AddTask(Built(before), id, maxRetries) && d in AddTask(Built(before), id, maxRetries)
    ensures Edges(AddTask(Built(before), id, maxRetries), t, d)
            == if id == t || id == d then 0 else TimesLinked(before, t, d)
  {
    hide WellFormed, Built, Lives, TimesLinked;
    if d == id && t != id {
      NoEdgeToAbsent(Built(before), t, id);
      assert id in Built(before) ==> TimesLinked(before, t, id) == 0;
    }
  }

  lemma AddedKeeps(before: seq<Edit>, id: TaskId, maxRetries: nat)
    requires MatchesLog(Built(before), before) && SafeAdd(before, id)
    ensures MatchesLog(AddTask(Built(before), id, maxRetries), before + [Added(id, maxRetries)])
  {
    hide WellFormed, Built, SafeAdd, Edges;
    var edits := before + [Added(id, maxRetries)];
    assert edits[..|edits| - 1] == before && edits[|edits| - 1] == Added(id, maxRetries);
    var g' := AddTask(Built(before), id, maxRetries);
    SafeAddIff(before, id, maxRetries);
    forall t, d | t in g' && d in g'
      ensures Edges(g', t, d) == TimesLinked(edits, t, d)
    {
      AddedEdges(before, id, maxRetries, t, d);
    }
  }

  lemma DependedKeeps(before: seq<Edit>, a: TaskId, b: TaskId)
    requires MatchesLog(Built(before), before)
    ensures MatchesLog(AddDependency(Built(before), a, b), before + [Depended(a, b)])
  {
    hide WellFormed, Built;
    var edits := before + [Depended(a, b)];
    assert edits[..|edits| - 1] == before && edits[|edits| - 1] == Depended(a, b);
    var g, g' := Built(before), AddDependency(Built(before), a, b);
    AddDependencyKeeps(g, a, b);
    forall t, d | t in g' && d in g'
      ensures Edges(g', t, d) == TimesLinked(edits, t, d)
    {
      if a in g && b in g {
        AddDependencyEdges(g, a, b, t, d);
      }
    }
  }

  lemma RemovedKeeps(before: seq<Edit>, id: TaskId)
    requires MatchesLog(Built(before), before)
    ensures MatchesLog(Edited(Built(before), Removed(id)), before + [Removed(id)])
  {
    hide WellFormed, Built;
    var edits := before + [Removed(id)];
    assert edits[..|edits| - 1] == before && edits[|edits| - 1] == Removed(id);
    if id in Built(before) {
      RemoveTaskKeeps(Built(before), id);
    }
  }

  lemma EditKeeps(before: seq<Edit>, edit: Edit)
    requires MatchesLog(Built(before), before)
    requires edit.Added? ==> SafeAdd(before, edit.id)
    ensures MatchesLog(Built(before + [edit]), before + [edit])
  {
    hide MatchesLog;
    assert (before + [edit])[..|before|] == before;
    match edit
    case Added(id, maxRetries) => AddedKeeps(before, id, maxRetries);
    case Depended(a, b) => DependedKeeps(before, a, b);
    case Removed(id) => RemovedKeeps(before, id);
  }

  lemma NoEdgeToAbsent(g: Graph, t: TaskId, id: TaskId)
    requires WellFormed(g)
    ensures t in g && id !in g ==> Edges(g, t, id) == 0
  {
    if t in g {
      assert NeighboursLive(g, t);
    }
  }
}
