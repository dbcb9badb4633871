/** The job dependency graph of a workflow: declared, free of cycles, and visited in topological order. */
module WorkflowGraph {
  import opened Common

  /** A `needs` value: a job name, a list, or something else. */
  datatype Needs = One(job: string) | Many(jobs: seq<Option<string>>) | Malformed

  /** A job's mapping with its optional `needs`, or a value that is no mapping. */
  datatype Job = Mapping(needs: Option<Needs>) | NotMapping

  type Graph = map<string, seq<string>>

  datatype WorkflowError = BadJob | BadNeeds | UnknownJob | CycleFound

  function Names(jobs: seq<Option<string>>): Option<seq<string>> {
    if jobs == [] then Some([])
    else
      var rest := Names(jobs[1..]);
      if jobs[0].None? || rest.None? then None else Some([jobs[0].value] + rest.value)
  }

  predicate Distinct(s: seq<string>) { forall i, j | 0 <= i < j < |s| :: s[i] != s[j] }

  /** `_needs`, and the empty tuple for a job without any. */
  function NeedsOf(job: Job): Option<seq<string>> {
    match job
    case NotMapping => None
    case Mapping(None) => Some([])
    case Mapping(Some(One(name))) => Some([name])
    case Mapping(Some(Many(names))) =>
      var read := Names(names);
      if read.Some? && Distinct(read.value) then read else None
    case Mapping(Some(Malformed)) => None
  }

  /** Every job's needs are well formed and name declared jobs. */
  ghost predicate Declared(jobs: map<string, Job>) {
    forall j <- jobs.Keys :: NeedsOf(jobs[j]).Some? && forall d | d in NeedsOf(jobs[j]).value :: d in jobs
  }

  ghost function GraphOf(jobs: map<string, Job>): Graph
    requires Declared(jobs)
  {
    map j <- jobs.Keys :: NeedsOf(jobs[j]).value
  }

  /** A job without `needs` depends on nothing, one name on exactly that job, and a list of distinct names on exactly those,
      in their order; everything else is refused. */
  lemma DependsOnExactly(job: Job)
    ensures job.NotMapping? || (job.needs.Some? && job.needs.value.Malformed?) ==> NeedsOf(job).None?
    ensures job.Mapping? && job.needs.None? ==> NeedsOf(job) == Some([])
    ensures job.Mapping? && job.needs.Some? && job.needs.value.One? ==> NeedsOf(job) == Some([job.needs.value.job])
    ensures job.Mapping? && job.needs.Some? && job.needs.value.Many? ==>
      var names := job.needs.value.jobs;
      && (NeedsOf(job).Some? <==>
            && (forall i | 0 <= i < |names| :: names[i].Some?)
            && forall i, j | 0 <= i < j < |names| :: names[i] != names[j])
      && (NeedsOf(job).Some? ==>
            && |NeedsOf(job).value| == |names|
            && forall i | 0 <= i < |names| :: names[i] == Some(NeedsOf(job).value[i]))
  {
    if job.Mapping? && job.needs.Some? && job.needs.value.Many? { NamesRead(job.needs.value.jobs); }
  }

  lemma {:induction false} NamesRead(jobs: seq<Option<string>>)
    ensures Names(jobs).Some? <==> forall i | 0 <= i < |jobs| :: jobs[i].Some?
    ensures Names(jobs).Some? ==>
      |Names(jobs).value| == |jobs| && forall i | 0 <= i < |jobs| :: jobs[i] == Some(Names(jobs).value[i])
  {
    if jobs != [] { NamesRead(jobs[1..]); }
  }

  // ---- cycles and topological orders -----------------------------------------------------------------------------------

  /** Every need is a node. */
  ghost predicate Whole(g: Graph) { forall j, d | j in g && d in g[j] :: d in g }

  /** Each job needs the next. */
  ghost predicate Chain(g: Graph, p: seq<string>) {
    (forall i | 0 <= i < |p| :: p[i] in g) && forall i | 0 <= i < |p| - 1 :: p[i + 1] in g[p[i]]
  }

  ghost predicate Cycle(g: Graph, p: seq<string>) { |p| >= 2 && p[0] == p[|p| - 1] && Chain(g, p) }

  ghost predicate Acyclic(g: Graph) { forall p :: !Cycle(g, p) }

  /** Each job comes after everything it needs, and only once. */
  ghost predicate Topological(g: Graph, order: seq<string>) {
    && (forall i | 0 <= i < |order| :: order[i] in g && forall d | d in g[order[i]] :: d in order[..i])
    && Distinct(order)
  }

  /** A topological order of all jobs excludes every cycle. */
  lemma TopologicalIsAcyclic(g: Graph, order: seq<string>)
    requires Topological(g, order) && forall j <- g.Keys :: j in order
    ensures Acyclic(g)
  {
    forall p ensures !Cycle(g, p) {
      if Cycle(g, p) {
        var i :| 0 <= i < |order| && order[i] == p[0];
        ChainDescends(g, order, p, |p| - 1, i);
      }
    }
  }

  /** Along a chain the positions in the order strictly fall. */
  lemma {:induction false} ChainDescends(g: Graph, order: seq<string>, p: seq<string>, k: nat, i: nat)
    requires Topological(g, order) && Chain(g, p) && 0 < k < |p| && i < |order| && order[i] == p[0]
    ensures p[k] in order[..i]
  {
    if k == 1 {
      assert p[1] in g[p[0]];
    } else {
      ChainDescends(g, order, p, k - 1, i);
      var j :| 0 <= j < i && order[j] == p[k - 1];
      assert p[k - 1 + 1] in g[p[k - 1]];
      assert p[k] in order[..j];
    }
  }

  // ---- the depth-first search -----------------------------------------------------------------------------------------------

  class Visitor {
    const graph: Graph
    var visiting: set<string>
    var visited: set<string>
    /** The jobs being visited, outermost first, and the jobs in the order they were visited. */
    ghost var path: seq<string>
    ghost var order: seq<string>

    ghost predicate Valid()
      reads this
    {
      && Whole(graph) && visiting <= graph.Keys && visited !! visiting
      && Chain(graph, path) && (forall j :: j in path <==> j in visiting)
      && Topological(graph, order) && (forall j :: j in order <==> j in visited)
    }

    constructor (graph: Graph)
      requires Whole(graph)
      ensures this.graph == graph && Valid() && visiting == {} && visited == {} && path == [] && order == []
    {
      this.graph, visiting, visited, path, order := graph, {}, {}, [], [];
    }

    /** `visit`: fails exactly on finding a cycle; otherwise the job and all it needs have been visited. */
    method Visit(job: string) returns (ok: bool)
      requires Valid() && job in graph && (path != [] ==> job in graph[path[|path| - 1]])
      modifies this
      ensures ok ==>
        && Valid() && visiting == old(visiting) && path == old(path) && job in visited && old(visited) <= visited
        && old(order) <= order
      ensures !ok ==> !Acyclic(graph)
      decreases |graph.Keys - visiting|, 0
    {
      hide Topological, Acyclic, Chain;
      if job in visiting {
        CycleCloses(graph, path, job);
        return false;
      }
      if job in visited {
        return true;
      }
      ghost var outer := path;
      FewerLeft(graph.Keys, visiting, job);
      Enter(job);
      ok := VisitNeeds(job, outer);
      if ok {
        Leave(job, outer);
      }
    }

    /** The job is being visited. */
    method Enter(job: string)
      requires Valid() && job in graph && job !in visiting && job !in visited
      requires path != [] ==> job in graph[path[|path| - 1]]
      modifies this`visiting, this`path
      ensures Valid() && visiting == old(visiting) + {job} && path == old(path) + [job]
    {
      hide Topological, Whole;
      ChainGrows(graph, path, job);
      visiting := visiting + {job};
      path := path + [job];
    }

    /** The job and everything it needs have been visited. */
    method Leave(job: string, ghost outer: seq<string>)
      requires Valid() && job in visiting && path == outer + [job] && job !in outer && forall d | d in graph[job] :: d in visited
      modifies this
      ensures Valid() && visiting == old(visiting) - {job} && visited == old(visited) + {job} && path == outer
      ensures order == old(order) + [job]
    {
      hide Topological, Whole;
      ChainShrinks(graph, outer, job);
      OneMoreVisited(graph, order, job);
      visiting := visiting - {job};
      visited := visited + {job};
      path, order := outer, order + [job];
    }

    /** The loop of `visit` over a job's needs. */
    method VisitNeeds(job: string, ghost outer: seq<string>) returns (ok: bool)
      requires Valid() && job in visiting && path == outer + [job]
      modifies this
      ensures ok ==>
        && Valid() && visiting == old(visiting) && path == old(path) && old(visited) <= visited && old(order) <= order
        && forall d | d in graph[job] :: d in visited
      ensures !ok ==> !Acyclic(graph)
      decreases |graph.Keys - visiting|, 1
    {
      hide Topological, Acyclic, Chain;
      for i := 0 to |graph[job]|
        invariant Valid() && visiting == old(visiting) && path == old(path)
        invariant old(visited) <= visited && old(order) <= order && forall k | 0 <= k < i :: graph[job][k] in visited
      {
        ok := Visit(graph[job][i]);
        if !ok {
          return;
        }
      }
      ok := true;
    }
  }

  lemma FewerLeft(keys: set<string>, visiting: set<string>, job: string)
    requires job in keys && job !in visiting
    ensures |keys - (visiting + {job})| < |keys - visiting|
  {
    assert keys - visiting == (keys - (visiting + {job})) + {job};
  }

  /** A job that is needed by the last of a chain it is itself on closes a cycle. */
  lemma CycleCloses(g: Graph, path: seq<string>, job: string)
    requires Chain(g, path) && job in path && job in g && job in g[path[|path| - 1]]
    ensures !Acyclic(g)
  {
    var i :| 0 <= i < |path| && path[i] == job;
    var p := path[i..] + [job];
    assert Cycle(g, p);
  }

  lemma ChainGrows(g: Graph, path: seq<string>, job: string)
    requires Chain(g, path) && job in g && (path != [] ==> path[|path| - 1] in g && job in g[path[|path| - 1]])
    ensures Chain(g, path + [job])
  {
  }

  lemma ChainShrinks(g: Graph, path: seq<string>, job: string)
    requires Chain(g, path + [job])
    ensures Chain(g, path)
  {
    var longer := path + [job];
    assert forall i | 0 <= i < |path| :: longer[i] == path[i];
  }

  lemma OneMoreVisited(g: Graph, order: seq<string>, job: string)
    requires Topological(g, order) && job in g && job !in order && forall d | d in g[job] :: d in order
    ensures Topological(g, order + [job])
  {
    var more := order + [job];
    forall i | 0 <= i < |more| ensures more[i] in g && forall d | d in g[more[i]] :: d in more[..i] {
      assert more[..i] == order[..i];
      assert order[..|order|] == order;
    }
  }

  /** `_validate_graph`: succeeds exactly when every need is declared and no jobs need each other in a cycle. */
  method ValidateGraph(jobs: map<string, Job>) returns (r: Result<Graph, WorkflowError>, ghost order: seq<string>)
    ensures r.Success? <==> Declared(jobs) && Acyclic(GraphOf(jobs))
    ensures r.Success? ==>
      r.value == GraphOf(jobs) && Topological(r.value, order) && forall j <- jobs.Keys :: j in order
  {
    hide Topological, Acyclic, NeedsOf;
    var graph: Graph := map[];
    var remaining := jobs.Keys;
    order := [];
    while remaining != {}
      invariant remaining <= jobs.Keys && graph.Keys == jobs.Keys - remaining
      invariant forall j <- graph.Keys ::
        NeedsOf(jobs[j]) == Some(graph[j]) && forall d | d in graph[j] :: d in jobs
      decreases |remaining|
    {
      var job :| job in remaining;
      var needs := NeedsOf(jobs[job]);
      if needs.None? {
        return Failure(if jobs[job].NotMapping? then BadJob else BadNeeds), [];
      }
      if !(forall i | 0 <= i < |needs.value| :: needs.value[i] in jobs) {
        return Failure(UnknownJob), [];
      }
      graph := graph[job := needs.value];
      remaining := remaining - {job};
    }
    assert graph == GraphOf(jobs);
    var visitor := new Visitor(graph);
    remaining := graph.Keys;
    while remaining != {}
      invariant visitor.Valid() && visitor.graph == graph && visitor.path == [] && visitor.visiting == {}
      invariant fresh(visitor) && remaining <= graph.Keys && forall j <- graph.Keys - remaining :: j in visitor.visited
      decreases |remaining|
    {
      var job :| job in remaining;
      var ok := visitor.Visit(job);
      if !ok {
        return Failure(CycleFound), [];
      }
      remaining := remaining - {job};
    }
    order := visitor.order;
    TopologicalIsAcyclic(graph, order);
    r := Success(graph);
  }
}
