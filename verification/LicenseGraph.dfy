/** The dependency closures and paths behind the licence inventory check. */
module LicenseGraph {
  import opened Common

  const ROOT_PACKAGE: string := "milhouse-observability"
  const MAX_GRAPH_STATES: nat := 1_024

  datatype Dependency = Dependency(name: string, extras: seq<string>, marker: Option<string>)
  datatype Package = Package(
    version: Option<string>, dependencies: seq<Dependency>, optional: map<string, seq<Dependency>>, wheels: map<string, string>)

  /** The packages of the lock by name. */
  type Lock = map<string, Package>
  type Environment = map<string, string>

  /** PEP 508 marker evaluation, uninterpreted. */
  const Evaluate: (string, Environment) -> bool

  type Edge = (string, string)
  type Demand = (string, Dependency)

  datatype Closure = Closure(names: set<string>, edges: set<Edge>)

  /** An edge counts when it has no marker, or the marker holds; no environment means every edge. */
  predicate Active(d: Dependency, environment: Option<Environment>) {
    d.marker.None? || environment.None? || Evaluate(d.marker.value, environment.value)
  }

  // ---- the closure, as a least set ------------------------------------------------------------------------------------

  /** A demand can be served: its package is locked and offers the selected extras. */
  predicate Served(lock: Lock, d: Dependency) {
    d.name in lock && forall i | 0 <= i < |d.extras| :: d.extras[i] in lock[d.name].optional
  }

  /** The demands a served demand gives rise to. */
  ghost predicate Raises(lock: Lock, d: Dependency, child: Dependency)
    requires Served(lock, d)
  {
    || child in lock[d.name].dependencies
    || exists i :: 0 <= i < |d.extras| && child in lock[d.name].optional[d.extras[i]]
  }

  /** Closed under the demands of every active edge. */
  ghost predicate Closed(lock: Lock, initial: seq<Dependency>, environment: Option<Environment>, live: set<Demand>) {
    && (forall d | d in initial :: (ROOT_PACKAGE, d) in live)
    && forall x | x in live && Active(x.1, environment) ::
         Served(lock, x.1) && forall child | Raises(lock, x.1, child) :: (x.1.name, child) in live
  }

  ghost function NamesOf(live: set<Demand>, environment: Option<Environment>): set<string> {
    {ROOT_PACKAGE} + set x <- live | Active(x.1, environment) :: x.1.name
  }

  ghost function EdgesOf(live: set<Demand>, environment: Option<Environment>): set<Edge> {
    set x <- live | Active(x.1, environment) :: (x.0, x.1.name)
  }

  /** The least closed set of demands gives exactly this closure. */
  ghost predicate IsClosure(lock: Lock, initial: seq<Dependency>, environment: Option<Environment>, c: Closure) {
    && (exists live :: Closed(lock, initial, environment, live)
          && c.names == NamesOf(live, environment) && c.edges == EdgesOf(live, environment))
    && forall live :: Closed(lock, initial, environment, live) ==>
         c.names <= NamesOf(live, environment) && c.edges <= EdgesOf(live, environment)
  }

  /** The closure depends on the set of initial demands only, so no queue order can change it. */
  lemma ClosureIsUnique(
    lock: Lock, initial: seq<Dependency>, other: seq<Dependency>, environment: Option<Environment>, a: Closure, b: Closure)
    requires IsClosure(lock, initial, environment, a) && IsClosure(lock, other, environment, b)
    requires forall d :: d in initial <==> d in other
    ensures a == b
  {
    hide NamesOf, EdgesOf;
    var la :| Closed(lock, initial, environment, la)
      && a.names == NamesOf(la, environment) && a.edges == EdgesOf(la, environment);
    var lb :| Closed(lock, other, environment, lb)
      && b.names == NamesOf(lb, environment) && b.edges == EdgesOf(lb, environment);
    assert Closed(lock, other, environment, la) && Closed(lock, initial, environment, lb);
  }

  /** Any environment's closure lies within the one that ignores markers. */
  lemma EnvironmentOnlyShrinks(lock: Lock, initial: seq<Dependency>, environment: Environment, c: Closure, all: Closure)
    requires IsClosure(lock, initial, Some(environment), c) && IsClosure(lock, initial, None, all)
    ensures c.names <= all.names && c.edges <= all.edges
  {
    var live :| Closed(lock, initial, None, live) && all.names == NamesOf(live, None) && all.edges == EdgesOf(live, None);
    assert forall x: Demand | x in live :: Active(x.1, None);
    assert Closed(lock, initial, Some(environment), live);
  }

  /** The dependency occurs in the lock, or among the initial ones. */
  ghost predicate Occurs(lock: Lock, initial: seq<Dependency>, d: Dependency) {
    || d in initial
    || (exists name :: name in lock && d in lock[name].dependencies)
    || (exists name, extra :: name in lock && extra in lock[name].optional && d in lock[name].optional[extra])
  }

  /** The two environments evaluate every marker of the lock alike. */
  ghost predicate Agree(lock: Lock, initial: seq<Dependency>, e: Environment, f: Environment) {
    forall d | Occurs(lock, initial, d) && d.marker.Some? :: Evaluate(d.marker.value, e) == Evaluate(d.marker.value, f)
  }

  ghost function Within(lock: Lock, initial: seq<Dependency>, live: set<Demand>): set<Demand> {
    set x <- live | Occurs(lock, initial, x.1)
  }

  lemma ChildrenOccur(lock: Lock, initial: seq<Dependency>, d: Dependency, child: Dependency)
    requires Served(lock, d) && Raises(lock, d, child)
    ensures Occurs(lock, initial, child)
  {
    if child !in lock[d.name].dependencies {
      var i :| 0 <= i < |d.extras| && child in lock[d.name].optional[d.extras[i]];
      assert d.extras[i] in lock[d.name].optional;
    }
  }

  /** Closedness only depends on the demands that occur, and on how their markers evaluate. */
  lemma ClosedWithin(lock: Lock, initial: seq<Dependency>, e: Environment, f: Environment, live: set<Demand>)
    requires Closed(lock, initial, Some(e), live) && Agree(lock, initial, e, f)
    ensures var w := Within(lock, initial, live);
      && Closed(lock, initial, Some(f), w)
      && NamesOf(w, Some(f)) <= NamesOf(live, Some(e)) && EdgesOf(w, Some(f)) <= EdgesOf(live, Some(e))
  {
    hide Served, Raises;
    var w := Within(lock, initial, live);
    forall d | Occurs(lock, initial, d) ensures Active(d, Some(e)) == Active(d, Some(f)) {}
    forall x: Demand | x in w && Active(x.1, Some(f))
      ensures Served(lock, x.1) && forall child | Raises(lock, x.1, child) :: (x.1.name, child) in w
    {
      assert Active(x.1, Some(e));
      forall child | Raises(lock, x.1, child) ensures (x.1.name, child) in w { ChildrenOccur(lock, initial, x.1, child); }
    }
    assert forall x: Demand | x in w && Active(x.1, Some(f)) :: x in live && Active(x.1, Some(e));
  }

  lemma AgreeSymmetric(lock: Lock, initial: seq<Dependency>, e: Environment, f: Environment)
    requires Agree(lock, initial, e, f)
    ensures Agree(lock, initial, f, e)
  {
    hide Occurs;
  }

  /** Environments that evaluate every marker of the lock alike have the same closure. */
  lemma AgreeingEnvironments(lock: Lock, initial: seq<Dependency>, e: Environment, f: Environment, c: Closure)
    requires Agree(lock, initial, e, f) && IsClosure(lock, initial, Some(e), c)
    ensures IsClosure(lock, initial, Some(f), c)
  {
    hide Closed, NamesOf, EdgesOf, Agree;
    AgreeSymmetric(lock, initial, e, f);
    var live :| Closed(lock, initial, Some(e), live) && c.names == NamesOf(live, Some(e)) && c.edges == EdgesOf(live, Some(e));
    var w := Within(lock, initial, live);
    ClosedWithin(lock, initial, e, f, live);
    forall other | Closed(lock, initial, Some(f), other)
      ensures c.names <= NamesOf(other, Some(f)) && c.edges <= EdgesOf(other, Some(f))
    {
      ClosedWithin(lock, initial, f, e, other);
    }
    assert Closed(lock, initial, Some(f), w);
    assert c.names <= NamesOf(w, Some(f)) <= NamesOf(live, Some(e));
  }

  // ---- membership as reachability -----------------------------------------------------------------------------------------

  /** Dependencies, each of which is one of the package before it, or of a selected extra of that; the first is an initial
      one; and each has no marker, or one that holds in the environment, if there is one. */
  ghost predicate Route(lock: Lock, initial: seq<Dependency>, environment: Option<Environment>, p: seq<Dependency>) {
    && p != [] && p[0] in initial
    && (forall i | 0 <= i < |p| ::
         p[i].marker.Some? && environment.Some? ==> Evaluate(p[i].marker.value, environment.value))
    && (forall i, j | 0 <= i < |p| && j == i + 1 && j < |p| :: Follows(lock, p[i], p[j]))
  }

  /** The package of `d` asks for `child`, or one of the extras that `d` selects does. */
  ghost predicate Follows(lock: Lock, d: Dependency, child: Dependency) {
    && d.name in lock
    && (child in lock[d.name].dependencies
        || exists extra <- lock[d.name].optional.Keys :: extra in d.extras && child in lock[d.name].optional[extra])
  }

  /** The package that asks for the last dependency of a route. */
  function Asker(p: seq<Dependency>): string
    requires p != []
  {
    if |p| == 1 then ROOT_PACKAGE else p[|p| - 2].name
  }

  /** A demand that some route ends with. */
  ghost predicate Routed(lock: Lock, initial: seq<Dependency>, environment: Option<Environment>, x: Demand) {
    exists p: seq<Dependency> :: Route(lock, initial, environment, p) && x == (Asker(p), p[|p| - 1])
  }

  /** Every closed set of demands holds those at the end of routes. */
  lemma {:induction false} RoutesAreLive(
    lock: Lock, initial: seq<Dependency>, environment: Option<Environment>, live: set<Demand>, p: seq<Dependency>)
    requires Closed(lock, initial, environment, live) && Route(lock, initial, environment, p)
    ensures (Asker(p), p[|p| - 1]) in live
    decreases |p|
  {
    if |p| > 1 {
      var q := p[..|p| - 1];
      RoutesAreLive(lock, initial, environment, live, q);
      var d, child := q[|q| - 1], p[|p| - 1];
      assert Follows(lock, d, child);
      FollowsIsRaised(lock, d, child);
    }
  }

  lemma FollowsIsRaised(lock: Lock, d: Dependency, child: Dependency)
    requires Served(lock, d)
    ensures Follows(lock, d, child) <==> Raises(lock, d, child)
  {
    if Follows(lock, d, child) && child !in lock[d.name].dependencies {
      var extra :| extra in lock[d.name].optional && extra in d.extras && child in lock[d.name].optional[extra];
      var i :| 0 <= i < |d.extras| && d.extras[i] == extra;
    }
  }

  /** The live demands that routes end with are closed by themselves. */
  lemma RoutedIsClosed(
    lock: Lock, initial: seq<Dependency>, environment: Option<Environment>, live: set<Demand>, routed: set<Demand>)
    requires Closed(lock, initial, environment, live)
    requires forall x: Demand :: x in routed <==> x in live && Asked(lock, initial, environment, x)
    ensures Closed(lock, initial, environment, routed)
  {
    hide Route, Raises, Follows;
    forall d | d in initial ensures (ROOT_PACKAGE, d) in routed { InitialIsAsked(lock, initial, environment, d); }
    forall x: Demand | x in routed && Active(x.1, environment)
      ensures Served(lock, x.1) && forall child | Raises(lock, x.1, child) :: (x.1.name, child) in routed
    {
      forall child | Raises(lock, x.1, child) ensures (x.1.name, child) in routed {
        ChildIsAsked(lock, initial, environment, x, child);
      }
    }
  }

  /** An initial demand, or one of a package that a route leads to, whether its own marker holds or not. */
  ghost predicate Asked(lock: Lock, initial: seq<Dependency>, environment: Option<Environment>, x: Demand) {
    || (x.0 == ROOT_PACKAGE && x.1 in initial)
    || exists p: seq<Dependency> ::
         Route(lock, initial, environment, p) && x.0 == p[|p| - 1].name && Follows(lock, p[|p| - 1], x.1)
  }

  lemma InitialIsAsked(lock: Lock, initial: seq<Dependency>, environment: Option<Environment>, d: Dependency)
    requires d in initial
    ensures Asked(lock, initial, environment, (ROOT_PACKAGE, d))
  {
  }

  lemma ChildIsAsked(
    lock: Lock, initial: seq<Dependency>, environment: Option<Environment>, x: Demand, child: Dependency)
    requires Asked(lock, initial, environment, x) && Active(x.1, environment) && Served(lock, x.1)
    requires Raises(lock, x.1, child)
    ensures Asked(lock, initial, environment, (x.1.name, child))
  {
    AskedIsRouted(lock, initial, environment, x);
    var p: seq<Dependency> :| Route(lock, initial, environment, p) && x == (Asker(p), p[|p| - 1]);
    FollowsIsRaised(lock, x.1, child);
  }

  /** An asked demand whose marker holds is at the end of a route. */
  lemma AskedIsRouted(lock: Lock, initial: seq<Dependency>, environment: Option<Environment>, x: Demand)
    requires Asked(lock, initial, environment, x) && Active(x.1, environment)
    ensures Routed(lock, initial, environment, x)
  {
    if x.0 == ROOT_PACKAGE && x.1 in initial {
      assert Route(lock, initial, environment, [x.1]) && x == (Asker([x.1]), [x.1][0]);
    } else {
      var p: seq<Dependency> :|
        Route(lock, initial, environment, p) && x.0 == p[|p| - 1].name && Follows(lock, p[|p| - 1], x.1);
      RouteExtends(lock, initial, environment, p, x.1);
      assert x == (Asker(p + [x.1]), (p + [x.1])[|p|]);
    }
  }

  lemma RouteExtends(
    lock: Lock, initial: seq<Dependency>, environment: Option<Environment>, p: seq<Dependency>, d: Dependency)
    requires Route(lock, initial, environment, p) && Follows(lock, p[|p| - 1], d) && Active(d, environment)
    ensures Route(lock, initial, environment, p + [d])
  {
    hide Follows;
    var q := p + [d];
    forall i, j | 0 <= i < |q| && j == i + 1 && j < |q| ensures Follows(lock, q[i], q[j]) {
      if j < |p| { assert q[i] == p[i] && q[j] == p[j]; }
    }
  }

  /** A closure holds exactly the root, the packages that some route leads to, and the last steps of routes. */
  lemma ClosureIsReachability(lock: Lock, initial: seq<Dependency>, environment: Option<Environment>, c: Closure)
    requires IsClosure(lock, initial, environment, c)
    ensures forall n :: n in c.names <==>
      n == ROOT_PACKAGE || exists p: seq<Dependency> :: Route(lock, initial, environment, p) && p[|p| - 1].name == n
    ensures forall e: Edge :: e in c.edges <==>
      exists p: seq<Dependency> :: Route(lock, initial, environment, p) && e == (Asker(p), p[|p| - 1].name)
  {
    hide Follows, Closed, Asked;
    var live :| Closed(lock, initial, environment, live)
      && c.names == NamesOf(live, environment) && c.edges == EdgesOf(live, environment);
    var routed := set x <- live | Asked(lock, initial, environment, x);
    RoutedIsClosed(lock, initial, environment, live, routed);
    forall p: seq<Dependency> | Route(lock, initial, environment, p)
      ensures p[|p| - 1].name in c.names && (Asker(p), p[|p| - 1].name) in c.edges
    {
      RoutesAreLive(lock, initial, environment, live, p);
      RouteIsActive(lock, initial, environment, p);
    }
    forall x: Demand | x in routed && Active(x.1, environment)
      ensures exists p: seq<Dependency> :: Route(lock, initial, environment, p) && x == (Asker(p), p[|p| - 1])
    {
      AskedIsRouted(lock, initial, environment, x);
    }
  }

  lemma RouteIsActive(lock: Lock, initial: seq<Dependency>, environment: Option<Environment>, p: seq<Dependency>)
    requires Route(lock, initial, environment, p)
    ensures p != [] && Active(p[|p| - 1], environment)
  {
  }

  // ---- the worklist -----------------------------------------------------------------------------------------------------

  /** The extras of every package. */
  ghost function AllExtras(lock: Lock): set<(string, string)> {
    set name <- lock.Keys, extra <- lock[name].optional.Keys :: (name, extra)
  }

  function Demands(parent: string, children: seq<Dependency>): (r: seq<Demand>)
    ensures |r| == |children| && forall i | 0 <= i < |r| :: r[i] == (parent, children[i])
  {
    seq(|children|, i requires 0 <= i < |children| => (parent, children[i]))
  }

  /** A demand that has been taken and served. */
  ghost predicate Finished(lock: Lock, d: Dependency, bases: set<string>, extras: set<(string, string)>) {
    d.name in lock && d.name in bases && forall i | 0 <= i < |d.extras| :: (d.name, d.extras[i]) in extras
  }

  /** The traversal so far: `done` are the demands taken from the queue. */
  ghost predicate Traversed(
    lock: Lock, initial: seq<Dependency>, environment: Option<Environment>, pending: seq<Demand>, done: set<Demand>,
    bases: set<string>, extras: set<(string, string)>, names: set<string>, edges: set<Edge>)
  {
    && (forall d | d in initial :: (ROOT_PACKAGE, d) in done || (ROOT_PACKAGE, d) in pending)
    && bases <= lock.Keys && extras <= AllExtras(lock)
    && (forall b, d | b in bases && d in lock[b].dependencies :: (b, d) in done || (b, d) in pending)
    && (forall b, e, d | (b, e) in extras && d in lock[b].optional[e] :: (b, d) in done || (b, d) in pending)
    && (forall x | x in done && Active(x.1, environment) :: Finished(lock, x.1, bases, extras))
    && names == NamesOf(done, environment) && edges == EdgesOf(done, environment)
    && forall other | Closed(lock, initial, environment, other) :: done <= other && forall x | x in pending :: x in other
  }

  lemma TraversalBegins(lock: Lock, initial: seq<Dependency>, environment: Option<Environment>)
    ensures Traversed(
      lock, initial, environment, Demands(ROOT_PACKAGE, initial), {}, {}, {}, {ROOT_PACKAGE}, {})
  {
    var pending := Demands(ROOT_PACKAGE, initial);
    forall d | d in initial ensures (ROOT_PACKAGE, d) in pending {
      var i :| 0 <= i < |initial| && initial[i] == d;
      assert pending[i] == (ROOT_PACKAGE, d);
    }
    assert NamesOf({}, environment) == {ROOT_PACKAGE} && EdgesOf({}, environment) == {};
  }

  /** Queueing demands that every closed set has anyway. */
  lemma QueueMore(
    lock: Lock, initial: seq<Dependency>, environment: Option<Environment>, pending: seq<Demand>, done: set<Demand>,
    bases: set<string>, extras: set<(string, string)>, names: set<string>, edges: set<Edge>, more: seq<Demand>)
    requires Traversed(lock, initial, environment, pending, done, bases, extras, names, edges)
    requires forall other | Closed(lock, initial, environment, other) :: forall x | x in more :: x in other
    ensures Traversed(lock, initial, environment, pending + more, done, bases, extras, names, edges)
  {
    hide Closed, NamesOf, EdgesOf, Finished;
  }

  lemma BaseIsForced(
    lock: Lock, initial: seq<Dependency>, environment: Option<Environment>, x: Demand, other: set<Demand>)
    requires Closed(lock, initial, environment, other) && x in other && Active(x.1, environment) && x.1.name in lock
    ensures forall y | y in Demands(x.1.name, lock[x.1.name].dependencies) :: y in other
  {
    forall y | y in Demands(x.1.name, lock[x.1.name].dependencies) ensures y in other {
      assert Raises(lock, x.1, y.1);
    }
  }

  lemma ExtraIsForced(
    lock: Lock, initial: seq<Dependency>, environment: Option<Environment>, x: Demand, i: nat, other: set<Demand>)
    requires Closed(lock, initial, environment, other) && x in other && Active(x.1, environment) && i < |x.1.extras|
    requires x.1.name in lock && x.1.extras[i] in lock[x.1.name].optional
    ensures forall y | y in Demands(x.1.name, lock[x.1.name].optional[x.1.extras[i]]) :: y in other
  {
    forall y | y in Demands(x.1.name, lock[x.1.name].optional[x.1.extras[i]]) ensures y in other {
      assert Raises(lock, x.1, y.1);
    }
  }

  /** The package of the demand at the head of the queue is opened. */
  lemma OpenBase(
    lock: Lock, initial: seq<Dependency>, environment: Option<Environment>, pending: seq<Demand>, done: set<Demand>,
    bases: set<string>, extras: set<(string, string)>, names: set<string>, edges: set<Edge>, x: Demand)
    requires Traversed(lock, initial, environment, pending, done, bases, extras, names, edges)
    requires x in pending && Active(x.1, environment) && x.1.name in lock
    ensures Traversed(
      lock, initial, environment, pending + Demands(x.1.name, lock[x.1.name].dependencies), done,
      bases + {x.1.name}, extras, names, edges)
  {
    hide Closed, NamesOf, EdgesOf;
    var children := lock[x.1.name].dependencies;
    var more := Demands(x.1.name, children);
    forall other | Closed(lock, initial, environment, other) ensures forall y | y in more :: y in other {
      BaseIsForced(lock, initial, environment, x, other);
    }
    QueueMore(lock, initial, environment, pending, done, bases, extras, names, edges, more);
    forall d | d in children ensures (x.1.name, d) in more {
      var i :| 0 <= i < |children| && children[i] == d;
      assert more[i] == (x.1.name, d);
    }
  }

  lemma OpenExtra(
    lock: Lock, initial: seq<Dependency>, environment: Option<Environment>, pending: seq<Demand>, done: set<Demand>,
    bases: set<string>, extras: set<(string, string)>, names: set<string>, edges: set<Edge>, x: Demand, i: nat)
    requires Traversed(lock, initial, environment, pending, done, bases, extras, names, edges)
    requires x in pending && Active(x.1, environment) && x.1.name in lock && i < |x.1.extras|
    requires x.1.extras[i] in lock[x.1.name].optional
    ensures Traversed(
      lock, initial, environment, pending + Demands(x.1.name, lock[x.1.name].optional[x.1.extras[i]]), done,
      bases, extras + {(x.1.name, x.1.extras[i])}, names, edges)
  {
    hide Closed, NamesOf, EdgesOf;
    var group := lock[x.1.name].optional[x.1.extras[i]];
    var more := Demands(x.1.name, group);
    forall other | Closed(lock, initial, environment, other) ensures forall y | y in more :: y in other {
      ExtraIsForced(lock, initial, environment, x, i, other);
    }
    QueueMore(lock, initial, environment, pending, done, bases, extras, names, edges, more);
    forall d | d in group ensures (x.1.name, d) in more {
      var k :| 0 <= k < |group| && group[k] == d;
      assert more[k] == (x.1.name, d);
    }
  }

  /** The head of the queue is done with: inactive, or finished. */
  lemma TakeHead(
    lock: Lock, initial: seq<Dependency>, environment: Option<Environment>, rest: seq<Demand>, done: set<Demand>,
    bases: set<string>, extras: set<(string, string)>, names: set<string>, edges: set<Edge>, x: Demand)
    requires Traversed(lock, initial, environment, [x] + rest, done, bases, extras, names, edges)
    requires Active(x.1, environment) ==> Finished(lock, x.1, bases, extras)
    ensures
      if Active(x.1, environment)
      then Traversed(lock, initial, environment, rest, done + {x}, bases, extras, names + {x.1.name}, edges + {(x.0, x.1.name)})
      else Traversed(lock, initial, environment, rest, done + {x}, bases, extras, names, edges)
  {
    hide Closed, Finished;
    assert forall y | y in [x] + rest :: y == x || y in rest;
    assert x in [x] + rest;
  }

  /** With an empty queue the demands taken are the least closed set. */
  lemma TraversalEnds(
    lock: Lock, initial: seq<Dependency>, environment: Option<Environment>, done: set<Demand>,
    bases: set<string>, extras: set<(string, string)>, names: set<string>, edges: set<Edge>)
    requires Traversed(lock, initial, environment, [], done, bases, extras, names, edges)
    ensures IsClosure(lock, initial, environment, Closure(names, edges))
  {
    forall x: Demand | x in done && Active(x.1, environment)
      ensures Served(lock, x.1) && forall child | Raises(lock, x.1, child) :: (x.1.name, child) in done
    {
      assert Finished(lock, x.1, bases, extras);
      forall i | 0 <= i < |x.1.extras| ensures x.1.extras[i] in lock[x.1.name].optional {
        assert (x.1.name, x.1.extras[i]) in AllExtras(lock);
      }
    }
    assert Closed(lock, initial, environment, done);
  }

  datatype LockError = MissingPackage | MissingGroup

  /** `dependency_closure`: the least closure, whenever there is one. */
  method DependencyClosure(lock: Lock, initial: seq<Dependency>, environment: Option<Environment>)
    returns (r: Result<Closure, LockError>)
    ensures r.Success? ==> IsClosure(lock, initial, environment, r.value)
    ensures r.Failure? ==> forall live :: !Closed(lock, initial, environment, live)
  {
    hide Traversed, Closed, IsClosure, AllExtras, Unopened, Active;
    var pending := Demands(ROOT_PACKAGE, initial);
    var names, edges := {ROOT_PACKAGE}, {};
    var bases: set<string>, extras: set<(string, string)> := {}, {};
    ghost var done: set<Demand> := {};
    TraversalBegins(lock, initial, environment);
    while pending != []
      invariant Traversed(lock, initial, environment, pending, done, bases, extras, names, edges)
      decreases Unopened(lock, bases, extras), |pending|
    {
      var x := pending[0];
      var parent, dependency := x.0, x.1;
      var rest := pending[1..];
      assert pending == [x] + rest;
      if !Active(dependency, environment) {
        TakeHead(lock, initial, environment, rest, done, bases, extras, names, edges, x);
        done, pending := done + {x}, rest;
        continue;
      }
      HeadIsForced(lock, initial, environment, pending, done, bases, extras, names, edges, x);
      if dependency.name !in lock {
        return Failure(MissingPackage);
      }
      ghost var before := Unopened(lock, bases, extras);
      pending := rest;
      if dependency.name !in bases {
        OpenBase(lock, initial, environment, [x] + rest, done, bases, extras, names, edges, x);
        assert [x] + rest + Demands(dependency.name, lock[dependency.name].dependencies)
          == [x] + (rest + Demands(dependency.name, lock[dependency.name].dependencies));
        FewerUnopened(lock, bases, extras, dependency.name);
        bases := bases + {dependency.name};
        pending := pending + Demands(dependency.name, lock[dependency.name].dependencies);
      }
      for i := 0 to |dependency.extras|
        invariant Traversed(lock, initial, environment, [x] + pending, done, bases, extras, names, edges)
        invariant dependency.name in bases && forall k | 0 <= k < i :: (dependency.name, dependency.extras[k]) in extras
        invariant Unopened(lock, bases, extras) < before || (Unopened(lock, bases, extras) == before && pending == rest)
      {
        var extra := dependency.extras[i];
        if (dependency.name, extra) in extras {
          continue;
        }
        if extra !in lock[dependency.name].optional {
          ExtraIsRequired(lock, initial, environment, [x] + pending, done, bases, extras, names, edges, x, i);
          return Failure(MissingGroup);
        }
        var group := Demands(dependency.name, lock[dependency.name].optional[extra]);
        OpenExtra(lock, initial, environment, [x] + pending, done, bases, extras, names, edges, x, i);
        assert [x] + pending + group == [x] + (pending + group);
        NewExtra(lock, bases, extras, dependency.name, extra);
        extras := extras + {(dependency.name, extra)};
        pending := pending + group;
      }
      TakeHead(lock, initial, environment, pending, done, bases, extras, names, edges, x);
      done := done + {x};
      names, edges := names + {dependency.name}, edges + {(parent, dependency.name)};
    }
    TraversalEnds(lock, initial, environment, done, bases, extras, names, edges);
    r := Success(Closure(names, edges));
  }

  /** The packages and extras not opened yet: what bounds the traversal. */
  ghost function Unopened(lock: Lock, bases: set<string>, extras: set<(string, string)>): nat {
    |lock.Keys - bases| + |AllExtras(lock) - extras|
  }

  lemma FewerUnopened(lock: Lock, bases: set<string>, extras: set<(string, string)>, name: string)
    requires name in lock && name !in bases
    ensures Unopened(lock, bases + {name}, extras) < Unopened(lock, bases, extras)
  {
    hide AllExtras;
    assert lock.Keys - bases == (lock.Keys - (bases + {name})) + {name};
  }

  lemma NewExtra(lock: Lock, bases: set<string>, extras: set<(string, string)>, name: string, extra: string)
    requires name in lock && extra in lock[name].optional && (name, extra) !in extras
    ensures Unopened(lock, bases, extras + {(name, extra)}) < Unopened(lock, bases, extras)
  {
    assert (name, extra) in AllExtras(lock);
    assert AllExtras(lock) - extras == (AllExtras(lock) - (extras + {(name, extra)})) + {(name, extra)};
  }

  lemma HeadIsForced(
    lock: Lock, initial: seq<Dependency>, environment: Option<Environment>, pending: seq<Demand>, done: set<Demand>,
    bases: set<string>, extras: set<(string, string)>, names: set<string>, edges: set<Edge>, x: Demand)
    requires Traversed(lock, initial, environment, pending, done, bases, extras, names, edges)
    requires x in pending && Active(x.1, environment)
    ensures x.1.name !in lock ==> forall live :: !Closed(lock, initial, environment, live)
  {
    forall live | Closed(lock, initial, environment, live) ensures x.1.name in lock { assert x in live; }
  }

  lemma ExtraIsRequired(
    lock: Lock, initial: seq<Dependency>, environment: Option<Environment>, pending: seq<Demand>, done: set<Demand>,
    bases: set<string>, extras: set<(string, string)>, names: set<string>, edges: set<Edge>, x: Demand, i: nat)
    requires Traversed(lock, initial, environment, pending, done, bases, extras, names, edges)
    requires x in pending && Active(x.1, environment) && x.1.name in lock
    requires i < |x.1.extras|
    ensures x.1.extras[i] !in lock[x.1.name].optional ==> forall live :: !Closed(lock, initial, environment, live)
  {
    forall live | Closed(lock, initial, environment, live) ensures x.1.extras[i] in lock[x.1.name].optional {
      assert x in live;
    }
  }

  // ---- simple paths ---------------------------------------------------------------------------------------------------------

  /** A path from the root along edges, visiting no package twice. */
  ghost predicate SimplePath(edges: set<Edge>, path: seq<string>) {
    && path != [] && path[0] == ROOT_PACKAGE
    && (forall i | 0 < i < |path| :: (path[i - 1], path[i]) in edges)
    && (forall i, j | 0 <= i < j < |path| :: path[i] != path[j])
  }

  ghost predicate PathTo(edges: set<Edge>, path: seq<string>, target: string) {
    SimplePath(edges, path) && path[|path| - 1] == target
  }

  /** Some queued path can still grow into this one. */
  ghost predicate Queued(pending: seq<seq<string>>, path: seq<string>) { exists i :: 0 <= i < |pending| && pending[i] <= path }

  /** The queued and found paths account for every simple path to the target. */
  ghost predicate Enumerated(edges: set<Edge>, target: string, pending: seq<seq<string>>, paths: set<seq<string>>) {
    && (forall i | 0 <= i < |pending| :: SimplePath(edges, pending[i]))
    && (forall p <- paths :: PathTo(edges, p, target))
    && forall p | PathTo(edges, p, target) :: p in paths || Queued(pending, p)
  }

  /** The one-step extensions of a simple path. */
  ghost predicate Extensions(edges: set<Edge>, path: seq<string>, extended: seq<seq<string>>) {
    && (forall i | 0 <= i < |extended| ::
         SimplePath(edges, extended[i]) && |extended[i]| == |path| + 1 && extended[i][..|path|] == path)
    && (forall i, j | 0 <= i < j < |extended| :: extended[i] != extended[j])
    && forall child | path != [] && (path[|path| - 1], child) in edges && child !in path :: path + [child] in extended
  }

  lemma EnumerationBegins(edges: set<Edge>, target: string)
    ensures Enumerated(edges, target, [[ROOT_PACKAGE]], {})
  {
    forall p | PathTo(edges, p, target) ensures Queued([[ROOT_PACKAGE]], p) { assert [[ROOT_PACKAGE]][0] <= p; }
  }

  lemma TargetReached(edges: set<Edge>, target: string, path: seq<string>, rest: seq<seq<string>>, paths: set<seq<string>>)
    requires Enumerated(edges, target, [path] + rest, paths) && path != [] && path[|path| - 1] == target
    ensures Enumerated(edges, target, rest, paths + {path})
  {
    var pending := [path] + rest;
    forall i | 0 <= i < |rest| ensures SimplePath(edges, rest[i]) { assert pending[i + 1] == rest[i]; }
    assert SimplePath(edges, path) by { assert pending[0] == path; }
    forall p | PathTo(edges, p, target) ensures p in paths + {path} || Queued(rest, p) {
      if p !in paths {
        var i :| 0 <= i < |pending| && pending[i] <= p;
        if i == 0 { WholePath(edges, path, p, target); } else { assert rest[i - 1] <= p; }
      }
    }
  }

  /** A simple path to the target is not extended by another. */
  lemma WholePath(edges: set<Edge>, path: seq<string>, p: seq<string>, target: string)
    requires path != [] && path <= p && path[|path| - 1] == target && PathTo(edges, p, target)
    ensures p == path
  {
    assert p[|path| - 1] == target;
  }

  lemma PathGrown(
    edges: set<Edge>, target: string, path: seq<string>, rest: seq<seq<string>>, extended: seq<seq<string>>,
    paths: set<seq<string>>)
    requires Enumerated(edges, target, [path] + rest, paths) && path != [] && path[|path| - 1] != target
    requires Extensions(edges, path, extended)
    ensures Enumerated(edges, target, rest + extended, paths)
  {
    var pending := [path] + rest;
    forall i | 0 <= i < |rest| ensures SimplePath(edges, rest[i]) { assert pending[i + 1] == rest[i]; }
    forall p | PathTo(edges, p, target) ensures p in paths || Queued(rest + extended, p) {
      if p !in paths {
        var i :| 0 <= i < |pending| && pending[i] <= p;
        if i == 0 {
          OneStepFurther(edges, path, p, extended);
          var k :| 0 <= k < |extended| && extended[k] <= p;
          assert (rest + extended)[|rest| + k] <= p;
        } else {
          assert (rest + extended)[i - 1] <= p;
        }
      }
    }
  }

  lemma OneStepFurther(edges: set<Edge>, path: seq<string>, p: seq<string>, extended: seq<seq<string>>)
    requires path != [] && path < p && SimplePath(edges, p) && Extensions(edges, path, extended)
    ensures Queued(extended, p)
  {
    var child := p[|path|];
    assert p[|path| - 1] == path[|path| - 1];
    assert child !in path;
    var k :| 0 <= k < |extended| && extended[k] == path + [child];
    assert extended[k] <= p;
  }

  // ---- how many paths are visited -----------------------------------------------------------------------------------------

  /** A path the traversal visits: it ends where it first meets the target. */
  ghost predicate Visited(edges: set<Edge>, target: string, path: seq<string>) {
    SimplePath(edges, path) && forall i | 0 <= i < |path| - 1 :: path[i] != target
  }

  /** There are no more of them than the bound. */
  ghost predicate Bounded(edges: set<Edge>, target: string) {
    exists s: set<seq<string>> :: |s| <= 1_024 && forall p | Visited(edges, target, p) :: p in s
  }

  /** A visited path, together with the one it extends. */
  ghost predicate Grown(edges: set<Edge>, target: string, done: set<seq<string>>, path: seq<string>) {
    Visited(edges, target, path) && (|path| > 1 ==> path[..|path| - 1] in done)
  }

  /** The queued paths, each once and none of them visited yet. */
  ghost predicate Waiting(edges: set<Edge>, target: string, done: set<seq<string>>, pending: seq<seq<string>>) {
    && (forall i | 0 <= i < |pending| :: Grown(edges, target, done, pending[i]) && pending[i] !in done)
    && (forall i, j | 0 <= i < j < |pending| :: pending[i] != pending[j])
  }

  /** Every path to visit has been, or begins with a queued one. */
  ghost predicate Accounted(edges: set<Edge>, target: string, done: set<seq<string>>, pending: seq<seq<string>>) {
    forall p | Visited(edges, target, p) :: p in done || Queued(pending, p)
  }

  ghost predicate Walked(edges: set<Edge>, target: string, done: set<seq<string>>, pending: seq<seq<string>>) {
    && (forall p <- done :: Grown(edges, target, done, p))
    && Waiting(edges, target, done, pending) && Accounted(edges, target, done, pending)
  }

  lemma WalkBegins(edges: set<Edge>, target: string)
    ensures Walked(edges, target, {}, [[ROOT_PACKAGE]])
  {
    forall p | Visited(edges, target, p) ensures Queued([[ROOT_PACKAGE]], p) { assert [[ROOT_PACKAGE]][0] <= p; }
  }

  /** The head of the queue is visited. */
  lemma HeadVisited(edges: set<Edge>, target: string, done: set<seq<string>>, path: seq<string>, rest: seq<seq<string>>)
    requires Walked(edges, target, done, [path] + rest)
    ensures path !in done && Visited(edges, target, path) && Waiting(edges, target, done + {path}, rest)
    ensures forall p :: p in done || p in rest ==> Grown(edges, target, done, p)
    ensures forall p <- done + {path} :: Grown(edges, target, done + {path}, p)
  {
    hide Visited, Accounted;
    var pending := [path] + rest;
    assert pending[0] == path;
    forall i | 0 <= i < |rest| ensures pending[i + 1] == rest[i] {}
  }

  lemma WalkStops(edges: set<Edge>, target: string, done: set<seq<string>>, path: seq<string>, rest: seq<seq<string>>)
    requires Walked(edges, target, done, [path] + rest) && path != [] && path[|path| - 1] == target
    ensures Walked(edges, target, done + {path}, rest) && path !in done
  {
    hide Waiting, Grown, SimplePath;
    HeadVisited(edges, target, done, path, rest);
    var pending := [path] + rest;
    forall p | Visited(edges, target, p) ensures p in done + {path} || Queued(rest, p) {
      if p !in done {
        var i :| 0 <= i < |pending| && pending[i] <= p;
        if i == 0 {
          assert p[|path| - 1] == target;
          assert |p| == |path| && p == path;
        } else {
          assert rest[i - 1] <= p;
        }
      }
    }
  }

  lemma WalkGoesOn(
    edges: set<Edge>, target: string, done: set<seq<string>>, path: seq<string>, rest: seq<seq<string>>,
    extended: seq<seq<string>>)
    requires Walked(edges, target, done, [path] + rest) && path != [] && path[|path| - 1] != target
    requires Extensions(edges, path, extended)
    ensures Walked(edges, target, done + {path}, rest + extended) && path !in done
  {
    hide Waiting, Grown, Visited, Extensions, Queued;
    HeadVisited(edges, target, done, path, rest);
    WaitingMore(edges, target, done, path, rest, extended);
    forall p | Visited(edges, target, p) ensures p in done + {path} || Queued(rest + extended, p) {
      if p !in done + {path} {
        VisitedIsSimple(edges, target, p);
        StillQueued(edges, target, done, path, rest, extended, p);
      }
    }
  }

  lemma VisitedIsSimple(edges: set<Edge>, target: string, p: seq<string>)
    requires Visited(edges, target, p)
    ensures SimplePath(edges, p)
  {
  }

  lemma WaitingMore(
    edges: set<Edge>, target: string, done: set<seq<string>>, path: seq<string>, rest: seq<seq<string>>,
    extended: seq<seq<string>>)
    requires Waiting(edges, target, done + {path}, rest) && Visited(edges, target, path) && path !in done
    requires path != [] && path[|path| - 1] != target && Extensions(edges, path, extended)
    requires forall p <- done + {path} :: Grown(edges, target, done + {path}, p)
    requires forall p :: p in done || p in rest ==> Grown(edges, target, done, p)
    ensures Waiting(edges, target, done + {path}, rest + extended)
  {
    hide SimplePath;
    var next := rest + extended;
    forall k | 0 <= k < |extended|
      ensures Grown(edges, target, done + {path}, extended[k]) && extended[k] !in done + {path} && extended[k] !in rest
    {
      var q := extended[k];
      assert forall i | 0 <= i < |path| :: q[i] == path[i];
      assert q[..|q| - 1] == path;
    }
    forall i, j | 0 <= i < j < |next| ensures next[i] != next[j] {
      if i < |rest| <= j { assert next[j] == extended[j - |rest|] && next[i] in rest; }
    }
  }

  lemma StillQueued(
    edges: set<Edge>, target: string, done: set<seq<string>>, path: seq<string>, rest: seq<seq<string>>,
    extended: seq<seq<string>>, p: seq<string>)
    requires Queued([path] + rest, p) && SimplePath(edges, p) && p != path && path != [] && Extensions(edges, path, extended)
    ensures Queued(rest + extended, p)
  {
    hide SimplePath, Extensions;
    var pending := [path] + rest;
    var i :| 0 <= i < |pending| && pending[i] <= p;
    if i == 0 {
      OneStepFurther(edges, path, p, extended);
      var k :| 0 <= k < |extended| && extended[k] <= p;
      assert (rest + extended)[|rest| + k] <= p;
    } else {
      assert (rest + extended)[i - 1] <= p;
    }
  }

  lemma WalkEnds(edges: set<Edge>, target: string, done: set<seq<string>>)
    requires Walked(edges, target, done, []) && |done| <= MAX_GRAPH_STATES
    ensures Bounded(edges, target)
  {
    hide Visited, Grown;
  }

  lemma WalkExceeds(edges: set<Edge>, target: string, done: set<seq<string>>, pending: seq<seq<string>>)
    requires Walked(edges, target, done, pending) && |done| == MAX_GRAPH_STATES && pending != []
    ensures !Bounded(edges, target)
  {
    hide Visited, Accounted;
    var more := done + {pending[0]};
    assert Visited(edges, target, pending[0]);
    forall s: set<seq<string>> | forall p | Visited(edges, target, p) :: p in s ensures |s| > MAX_GRAPH_STATES {
      assert more <= s;
      assert |s - more| == |s| - |more|;
    }
  }

  /** `_dependency_paths`: every simple path from the root to the target, and nothing else; refused exactly when more paths
      are visited than the bound. */
  method DependencyPaths(closure: Closure, target: string) returns (r: Option<set<seq<string>>>)
    ensures r.Some? ==> forall p :: p in r.value <==> PathTo(closure.edges, p, target)
    ensures r.Some? <==> Bounded(closure.edges, target)
  {
    hide SimplePath, PathTo, Queued, Walked, Extensions;
    ghost var done: set<seq<string>> := {};
    WalkBegins(closure.edges, target);
    var paths: set<seq<string>> := {};
    var pending: seq<seq<string>> := [[ROOT_PACKAGE]];
    var traversed := 0;
    EnumerationBegins(closure.edges, target);
    while pending != []
      invariant traversed <= MAX_GRAPH_STATES && Enumerated(closure.edges, target, pending, paths)
      invariant |done| == traversed && Walked(closure.edges, target, done, pending)
      decreases MAX_GRAPH_STATES - traversed
    {
      if traversed == MAX_GRAPH_STATES {
        WalkExceeds(closure.edges, target, done, pending);
        return None;
      }
      var path, rest := pending[0], pending[1..];
      assert pending == [path] + rest;
      traversed := traversed + 1;
      SimplePathHasEnd(closure.edges, path);
      if path[|path| - 1] == target {
        TargetReached(closure.edges, target, path, rest, paths);
        WalkStops(closure.edges, target, done, path, rest);
        paths, pending := paths + {path}, rest;
      } else {
        var extended := Extend(closure.edges, path);
        PathGrown(closure.edges, target, path, rest, extended, paths);
        WalkGoesOn(closure.edges, target, done, path, rest, extended);
        pending := rest + extended;
      }
      done := done + {path};
    }
    WalkEnds(closure.edges, target, done);
    NothingQueued(closure.edges, target, paths);
    r := Some(paths);
  }

  lemma SimplePathHasEnd(edges: set<Edge>, path: seq<string>)
    requires SimplePath(edges, path)
    ensures path != []
  {
  }

  lemma NothingQueued(edges: set<Edge>, target: string, paths: set<seq<string>>)
    requires Enumerated(edges, target, [], paths)
    ensures forall p :: p in paths <==> PathTo(edges, p, target)
  {
    hide PathTo;
  }

  /** The children not yet on the path, each appended to it. */
  method Extend(edges: set<Edge>, path: seq<string>) returns (extended: seq<seq<string>>)
    requires SimplePath(edges, path)
    ensures Extensions(edges, path, extended)
  {
    var last := path[|path| - 1];
    var children := set e <- edges | e.0 == last && e.1 !in path :: e.1;
    extended := [];
    ghost var all := children;
    while children != {}
      invariant children <= all
      invariant forall i | 0 <= i < |extended| ::
        && SimplePath(edges, extended[i]) && |extended[i]| == |path| + 1 && extended[i][..|path|] == path
        && extended[i][|path|] !in children
      invariant forall i, j | 0 <= i < j < |extended| :: extended[i] != extended[j]
      invariant forall child | child in all - children :: path + [child] in extended
      decreases |children|
    {
      var child :| child in children;
      ExtendedPath(edges, path, child);
      assert (path + [child])[..|path|] == path && (path + [child])[|path|] == child;
      extended := extended + [path + [child]];
      children := children - {child};
    }
  }

  lemma ExtendedPath(edges: set<Edge>, path: seq<string>, child: string)
    requires SimplePath(edges, path) && (path[|path| - 1], child) in edges && child !in path
    ensures SimplePath(edges, path + [child])
  {
  }

  // ---- license values -----------------------------------------------------------------------------------------------------

  const FIELDS: nat := 3

  /** The license fields of a package, in the inventory's order. */
  datatype Values = Values(expression: string, metadata: string, classifier: string) {
    function Fields(): (r: seq<string>)
      ensures |r| == FIELDS
    {
      [expression, metadata, classifier]
    }
  }

  datatype Recognized = Recognized(expression: set<string>, metadata: set<string>, classifier: set<string>) {
    function Fields(): (r: seq<set<string>>)
      ensures |r| == FIELDS
    {
      [expression, metadata, classifier]
    }
  }

  datatype Record = Record(name: string, version: string, values: Values)
  datatype ReviewedException = ReviewedException(version: string, path: seq<string>, values: Values)
  datatype Evidence = Evidence(version: string, url: string, hash: string, values: Values)

  /** The policy; its tests for copyleft markers and for unknown values, which fold case, are functions. */
  datatype Policy = Policy(
    forbidden: string -> bool, unknown: string -> bool, recognized: Recognized, evidence: map<string, Evidence>,
    exceptions: map<string, ReviewedException>)

  ghost predicate Copyleft(values: Values, policy: Policy) {
    policy.forbidden(values.expression) || policy.forbidden(values.metadata) || policy.forbidden(values.classifier)
  }

  /** A copyleft marker only in an inventory record reviewed at that version with those values; otherwise some known
      field, and every known one recognized. `version` is that of an inventory record. */
  ghost predicate Acceptable(name: string, values: Values, policy: Policy, version: Option<string>) {
    if Copyleft(values, policy) then
      && version.Some? && name in policy.exceptions
      && policy.exceptions[name].version == version.value && policy.exceptions[name].values == values
    else
      && (policy.unknown(values.expression) || values.expression in policy.recognized.expression)
      && (policy.unknown(values.metadata) || values.metadata in policy.recognized.metadata)
      && (policy.unknown(values.classifier) || values.classifier in policy.recognized.classifier)
      && !(policy.unknown(values.expression) && policy.unknown(values.metadata) && policy.unknown(values.classifier))
  }

  /** `_validate_license_values`. */
  method ValidateLicenseValues(name: string, values: Values, policy: Policy, version: Option<string>) returns (ok: bool)
    ensures ok <==> Acceptable(name, values, policy, version)
  {
    var fields, recognized := values.Fields(), policy.recognized.Fields();
    var forbidden := false;
    for i := 0 to FIELDS
      invariant forbidden <==> exists j | 0 <= j < i :: policy.forbidden(fields[j])
    {
      forbidden := forbidden || policy.forbidden(fields[i]);
    }
    assert forbidden <==> policy.forbidden(fields[0]) || policy.forbidden(fields[1]) || policy.forbidden(fields[2]);
    if forbidden {
      return
        && version.Some? && name in policy.exceptions
        && policy.exceptions[name].version == version.value && policy.exceptions[name].values == values;
    }
    var known := 0;
    for i := 0 to FIELDS
      invariant forall j | 0 <= j < i :: policy.unknown(fields[j]) || fields[j] in recognized[j]
      invariant known > 0 <==> exists j | 0 <= j < i :: !policy.unknown(fields[j])
    {
      if policy.unknown(fields[i]) {
        continue;
      }
      known := known + 1;
      if fields[i] !in recognized[i] {
        return false;
      }
    }
    ok := known > 0;
  }

  // ---- the checks built on closures -----------------------------------------------------------------------------------------

  datatype GraphError =
    | BadLock | ExceptionDrift | ExceptionReachable | PathDrift | TooManyStates | Unreachable | NotWindowsOnly
    | EvidenceMismatch | EvidenceDrift | EvidenceValues | HostOutsideMatrix | InventoryIncomplete | InventoryExtra
    | VersionDrift | InventoryValues

  /** A reviewed exception is locked at its version, absent from the runtime closure, and reached by its one path. */
  ghost predicate ExceptionHolds(lock: Lock, name: string, e: ReviewedException, only: Closure, all: Closure) {
    && name in lock && lock[name].version == Some(e.version) && name !in only.names
    && Bounded(all.edges, name) && forall p :: PathTo(all.edges, p, name) <==> p == e.path
  }

  ghost predicate ExceptionsHold(
    lock: Lock, runtime: seq<Dependency>, dev: seq<Dependency>, exceptions: map<string, ReviewedException>)
  {
    exists only: Closure, all: Closure ::
      && IsClosure(lock, runtime, None, only) && IsClosure(lock, runtime + dev, None, all)
      && forall name <- exceptions.Keys :: ExceptionHolds(lock, name, exceptions[name], only, all)
  }

  /** `validate_exception_graph`: passes exactly when every exception holds. */
  method ValidateExceptionGraph(
    lock: Lock, runtime: seq<Dependency>, dev: seq<Dependency>, exceptions: map<string, ReviewedException>)
    returns (r: Option<GraphError>)
    ensures r.None? <==> ExceptionsHold(lock, runtime, dev, exceptions)
  {
    hide IsClosure, PathTo, Bounded, Closed;
    var only := DependencyClosure(lock, runtime, None);
    var all := DependencyClosure(lock, runtime + dev, None);
    if only.Failure? || all.Failure? {
      if only.Failure? { NothingClosed(lock, runtime, None); } else { NothingClosed(lock, runtime + dev, None); }
      return Some(BadLock);
    }
    var remaining := exceptions.Keys;
    while remaining != {}
      invariant remaining <= exceptions.Keys
      invariant forall name | name in exceptions.Keys - remaining ::
        ExceptionHolds(lock, name, exceptions[name], only.value, all.value)
      decreases |remaining|
    {
      var name :| name in remaining;
      var e := exceptions[name];
      r := ValidateException(lock, name, e, only.value, all.value);
      if r.Some? {
        ExceptionFails(lock, runtime, dev, exceptions, only.value, all.value, name);
        return;
      }
      remaining := remaining - {name};
    }
    r := None;
  }

  method ValidateException(lock: Lock, name: string, e: ReviewedException, only: Closure, all: Closure)
    returns (r: Option<GraphError>)
    ensures r.None? <==> ExceptionHolds(lock, name, e, only, all)
  {
    hide PathTo, Bounded;
    if name !in lock || lock[name].version != Some(e.version) {
      return Some(ExceptionDrift);
    }
    if name in only.names {
      return Some(ExceptionReachable);
    }
    var paths := DependencyPaths(all, name);
    if paths.None? {
      return Some(TooManyStates);
    }
    if paths.value != {e.path} {
      return Some(PathDrift);
    }
    r := None;
  }

  lemma NothingClosed(lock: Lock, initial: seq<Dependency>, environment: Option<Environment>)
    requires forall live :: !Closed(lock, initial, environment, live)
    ensures forall c :: !IsClosure(lock, initial, environment, c)
  {
    hide Closed;
  }

  lemma ExceptionFails(
    lock: Lock, runtime: seq<Dependency>, dev: seq<Dependency>, exceptions: map<string, ReviewedException>, only: Closure,
    all: Closure, name: string)
    requires IsClosure(lock, runtime, None, only) && IsClosure(lock, runtime + dev, None, all)
    requires name in exceptions && !ExceptionHolds(lock, name, exceptions[name], only, all)
    ensures !ExceptionsHold(lock, runtime, dev, exceptions)
  {
    hide IsClosure, ExceptionHolds;
    forall o: Closure, a: Closure | IsClosure(lock, runtime, None, o) && IsClosure(lock, runtime + dev, None, a)
      ensures o == only && a == all
    {
      ClosureIsUnique(lock, runtime, runtime, None, o, only);
      ClosureIsUnique(lock, runtime + dev, runtime + dev, None, a, all);
    }
  }

  ghost predicate AreMatrix(lock: Lock, initial: seq<Dependency>, environments: seq<Environment>, matrix: seq<Closure>) {
    |matrix| == |environments| && forall k | 0 <= k < |matrix| :: IsClosure(lock, initial, Some(environments[k]), matrix[k])
  }

  lemma NoMatrix(lock: Lock, initial: seq<Dependency>, environments: seq<Environment>, k: nat)
    requires k < |environments| && forall c :: !IsClosure(lock, initial, Some(environments[k]), c)
    ensures forall m: seq<Closure> :: !AreMatrix(lock, initial, environments, m)
  {
    hide IsClosure;
    forall m: seq<Closure> ensures !AreMatrix(lock, initial, environments, m) {
      assert |m| == |environments| ==> !IsClosure(lock, initial, Some(environments[k]), m[k]);
    }
  }

  /** `_matrix_closures`: one closure per environment, unless some environment has none. */
  method MatrixClosures(lock: Lock, initial: seq<Dependency>, environments: seq<Environment>)
    returns (r: Option<seq<Closure>>)
    ensures r.Some? ==> AreMatrix(lock, initial, environments, r.value)
    ensures r.None? ==> forall m: seq<Closure> :: !AreMatrix(lock, initial, environments, m)
  {
    hide IsClosure, Closed;
    var closures: seq<Closure> := [];
    for k := 0 to |environments|
      invariant |closures| == k && forall j | 0 <= j < k :: IsClosure(lock, initial, Some(environments[j]), closures[j])
    {
      var c := DependencyClosure(lock, initial, Some(environments[k]));
      if c.Failure? {
        NothingClosed(lock, initial, Some(environments[k]));
        NoMatrix(lock, initial, environments, k);
        return None;
      }
      closures := closures + [c.value];
    }
    r := Some(closures);
  }

  /** `_union_closures`, and the packages in every closure. */
  function UnionNames(closures: seq<Closure>): set<string> { set c <- closures, n <- c.names :: n }
  function CommonNames(closures: seq<Closure>): set<string>
    requires closures != []
  {
    set n <- closures[0].names | forall i | 0 <= i < |closures| :: n in closures[i].names
  }

  /** The closures of the lock as a whole, of every supported environment and of every Windows one. */
  datatype Support = Support(all: Closure, matrix: seq<Closure>, windows: seq<Closure>)

  ghost predicate IsSupport(
    lock: Lock, initial: seq<Dependency>, environments: seq<Environment>, windows: seq<Environment>, s: Support)
  {
    && IsClosure(lock, initial, None, s.all)
    && AreMatrix(lock, initial, environments, s.matrix) && AreMatrix(lock, initial, windows, s.windows)
  }

  /** An artifact's evidence names a wheel of the locked version by its hash, and its values are acceptable. */
  ghost predicate EvidenceHolds(lock: Lock, name: string, e: Evidence, policy: Policy) {
    && name in lock && lock[name].version == Some(e.version) && e.url in lock[name].wheels && lock[name].wheels[e.url] == e.hash
    && Acceptable(name, e.values, policy, None)
  }

  ghost predicate RecordHolds(lock: Lock, record: Record, policy: Policy) {
    && record.name in lock && (record.name == ROOT_PACKAGE || lock[record.name].version == Some(record.version))
    && Acceptable(record.name, record.values, policy, Some(record.version))
  }

  function RecordedNames(inventory: seq<Record>): set<string> { set record <- inventory :: record.name }

  /** Every locked package is reachable, and supported or needed on Windows only; evidence covers exactly the packages
      that only some supported environment needs. */
  ghost predicate SupportHolds(lock: Lock, s: Support, evidence: set<string>)
    requires s.matrix != []
  {
    && s.all.names == lock.Keys && s.all.names - UnionNames(s.matrix) <= UnionNames(s.windows)
    && evidence == UnionNames(s.matrix) - CommonNames(s.matrix)
  }

  /** The records are exactly the host's closure, which is supported. */
  ghost predicate HostHolds(matrix: seq<Closure>, current: Closure, records: set<string>) {
    current.names <= UnionNames(matrix) && records == current.names
  }

  ghost predicate InventoryHolds(
    lock: Lock, runtime: seq<Dependency>, dev: seq<Dependency>, environments: seq<Environment>, windows: seq<Environment>,
    host: Environment, policy: Policy, inventory: seq<Record>)
    requires environments != []
  {
    && ExceptionsHold(lock, runtime, dev, policy.exceptions)
    && (exists s: Support, current: Closure ::
          && IsSupport(lock, runtime + dev, environments, windows, s) && SupportHolds(lock, s, policy.evidence.Keys)
          && IsClosure(lock, runtime + dev, Some(host), current) && HostHolds(s.matrix, current, RecordedNames(inventory)))
    && (forall name <- policy.evidence.Keys :: EvidenceHolds(lock, name, policy.evidence[name], policy))
    && (forall i | 0 <= i < |inventory| :: RecordHolds(lock, inventory[i], policy))
  }

  /** `validate_inventory`: passes exactly when everything holds. */
  method ValidateInventory(
    lock: Lock, runtime: seq<Dependency>, dev: seq<Dependency>, environments: seq<Environment>, windows: seq<Environment>,
    host: Environment, policy: Policy, inventory: seq<Record>) returns (r: Option<GraphError>)
    requires environments != []
    ensures r.None? <==> InventoryHolds(lock, runtime, dev, environments, windows, host, policy, inventory)
  {
    hide ExceptionsHold, IsSupport, SupportHolds, HostHolds, EvidenceHolds, RecordHolds, RecordedNames, IsClosure;
    r := ValidateExceptionGraph(lock, runtime, dev, policy.exceptions);
    if r.Some? {
      return;
    }
    var s;
    r, s := ValidateSupport(lock, runtime + dev, environments, windows, policy.evidence.Keys);
    if r.Some? {
      return;
    }
    LockedEvidence(lock, runtime + dev, environments, windows, s, policy.evidence.Keys);
    r := ValidateEvidence(lock, policy);
    if r.Some? {
      return;
    }
    ghost var current;
    r, current := ValidateHost(lock, runtime + dev, host, s.matrix, RecordedNames(inventory));
    OneSupport(lock, runtime + dev, environments, windows, s);
    if r.Some? {
      return;
    }
    LockedRecords(lock, runtime + dev, environments, windows, s, policy.evidence.Keys, current, RecordedNames(inventory));
    r := ValidateRecords(lock, policy, inventory);
  }

  method ValidateSupport(
    lock: Lock, initial: seq<Dependency>, environments: seq<Environment>, windows: seq<Environment>, evidence: set<string>)
    returns (r: Option<GraphError>, s: Support)
    requires environments != []
    ensures r.None? ==> IsSupport(lock, initial, environments, windows, s) && SupportHolds(lock, s, evidence)
    ensures r.Some? ==>
      forall t: Support | IsSupport(lock, initial, environments, windows, t) :: !SupportHolds(lock, t, evidence)
  {
    hide IsClosure, Closed, UnionNames, CommonNames;
    s := Support(Closure({}, {}), [], []);
    var matrix := MatrixClosures(lock, initial, environments);
    var conservative := DependencyClosure(lock, initial, None);
    var other := MatrixClosures(lock, initial, windows);
    if matrix.None? || conservative.Failure? || other.None? {
      if conservative.Failure? { NothingClosed(lock, initial, None); }
      return Some(BadLock), s;
    }
    s := Support(conservative.value, matrix.value, other.value);
    OneSupport(lock, initial, environments, windows, s);
    var supported, always := UnionNames(s.matrix), CommonNames(s.matrix);
    if s.all.names != lock.Keys {
      return Some(Unreachable), s;
    }
    if !(s.all.names - supported <= UnionNames(s.windows)) {
      return Some(NotWindowsOnly), s;
    }
    if evidence != supported - always {
      return Some(EvidenceMismatch), s;
    }
    r := None;
  }

  method ValidateHost(
    lock: Lock, initial: seq<Dependency>, host: Environment, matrix: seq<Closure>, records: set<string>)
    returns (r: Option<GraphError>, ghost current: Closure)
    ensures r.None? ==> IsClosure(lock, initial, Some(host), current) && HostHolds(matrix, current, records)
    ensures r.Some? ==> forall c: Closure | IsClosure(lock, initial, Some(host), c) :: !HostHolds(matrix, c, records)
  {
    hide IsClosure, Closed, UnionNames;
    current := Closure({}, {});
    var found := DependencyClosure(lock, initial, Some(host));
    if found.Failure? {
      NothingClosed(lock, initial, Some(host));
      return Some(BadLock), current;
    }
    current := found.value;
    forall c: Closure | IsClosure(lock, initial, Some(host), c) ensures c == current {
      ClosureIsUnique(lock, initial, initial, Some(host), c, current);
    }
    if !(found.value.names <= UnionNames(matrix)) {
      return Some(HostOutsideMatrix), current;
    }
    if !(found.value.names <= records) {
      return Some(InventoryIncomplete), current;
    }
    if !(records <= found.value.names) {
      return Some(InventoryExtra), current;
    }
    r := None;
  }

  lemma OneSupport(
    lock: Lock, initial: seq<Dependency>, environments: seq<Environment>, windows: seq<Environment>, s: Support)
    requires IsSupport(lock, initial, environments, windows, s)
    ensures forall t: Support | IsSupport(lock, initial, environments, windows, t) :: t == s
  {
    hide IsClosure;
    forall t: Support | IsSupport(lock, initial, environments, windows, t) ensures t == s {
      ClosureIsUnique(lock, initial, initial, None, t.all, s.all);
      SameMatrix(lock, initial, environments, t.matrix, s.matrix);
      SameMatrix(lock, initial, windows, t.windows, s.windows);
    }
  }

  lemma SameMatrix(lock: Lock, initial: seq<Dependency>, environments: seq<Environment>, a: seq<Closure>, b: seq<Closure>)
    requires AreMatrix(lock, initial, environments, a) && AreMatrix(lock, initial, environments, b)
    ensures a == b
  {
    hide IsClosure;
    forall k | 0 <= k < |a| ensures a[k] == b[k] {
      ClosureIsUnique(lock, initial, initial, Some(environments[k]), a[k], b[k]);
    }
  }

  /** What is supported is locked. */
  lemma SupportedIsLocked(
    lock: Lock, initial: seq<Dependency>, environments: seq<Environment>, windows: seq<Environment>, s: Support,
    evidence: set<string>)
    requires environments != [] && IsSupport(lock, initial, environments, windows, s) && SupportHolds(lock, s, evidence)
    ensures UnionNames(s.matrix) <= lock.Keys
  {
    hide IsClosure;
    forall k | 0 <= k < |s.matrix| ensures s.matrix[k].names <= s.all.names {
      EnvironmentOnlyShrinks(lock, initial, environments[k], s.matrix[k], s.all);
    }
  }

  lemma LockedEvidence(
    lock: Lock, initial: seq<Dependency>, environments: seq<Environment>, windows: seq<Environment>, s: Support,
    evidence: set<string>)
    requires environments != [] && IsSupport(lock, initial, environments, windows, s) && SupportHolds(lock, s, evidence)
    ensures evidence <= lock.Keys && s.matrix != []
  {
    hide IsClosure, UnionNames, CommonNames;
    SupportedIsLocked(lock, initial, environments, windows, s, evidence);
  }

  lemma LockedRecords(
    lock: Lock, initial: seq<Dependency>, environments: seq<Environment>, windows: seq<Environment>, s: Support,
    evidence: set<string>, current: Closure, records: set<string>)
    requires environments != [] && IsSupport(lock, initial, environments, windows, s) && SupportHolds(lock, s, evidence)
    requires HostHolds(s.matrix, current, records)
    ensures records <= lock.Keys
  {
    hide IsClosure, UnionNames, CommonNames;
    SupportedIsLocked(lock, initial, environments, windows, s, evidence);
  }

  method ValidateEvidence(lock: Lock, policy: Policy) returns (r: Option<GraphError>)
    requires policy.evidence.Keys <= lock.Keys
    ensures r.None? <==> forall name <- policy.evidence.Keys :: EvidenceHolds(lock, name, policy.evidence[name], policy)
  {
    hide Acceptable;
    var remaining := policy.evidence.Keys;
    while remaining != {}
      invariant remaining <= policy.evidence.Keys
      invariant forall name | name in policy.evidence.Keys - remaining :: EvidenceHolds(lock, name, policy.evidence[name], policy)
      decreases |remaining|
    {
      var name :| name in remaining;
      var e, package := policy.evidence[name], lock[name];
      if package.version != Some(e.version) || e.url !in package.wheels || package.wheels[e.url] != e.hash {
        assert !EvidenceHolds(lock, name, e, policy);
        return Some(EvidenceDrift);
      }
      var ok := ValidateLicenseValues(name, e.values, policy, None);
      if !ok {
        assert !EvidenceHolds(lock, name, e, policy);
        return Some(EvidenceValues);
      }
      remaining := remaining - {name};
    }
    r := None;
  }

  method ValidateRecords(lock: Lock, policy: Policy, inventory: seq<Record>) returns (r: Option<GraphError>)
    requires RecordedNames(inventory) <= lock.Keys
    ensures r.None? <==> forall i | 0 <= i < |inventory| :: RecordHolds(lock, inventory[i], policy)
  {
    hide Acceptable;
    for i := 0 to |inventory|
      invariant forall j | 0 <= j < i :: RecordHolds(lock, inventory[j], policy)
    {
      var record := inventory[i];
      assert record.name in RecordedNames(inventory);
      if record.name != ROOT_PACKAGE && lock[record.name].version != Some(record.version) {
        return Some(VersionDrift);
      }
      var ok := ValidateLicenseValues(record.name, record.values, policy, Some(record.version));
      if !ok {
        return Some(InventoryValues);
      }
    }
    r := None;
  }

  // ---- what a passing inventory covers ----------------------------------------------------------------------------------------

  /** Every package that some supported environment installs has a record or artifact evidence. */
  ghost predicate Covered(
    lock: Lock, initial: seq<Dependency>, environments: seq<Environment>, evidence: set<string>, records: set<string>)
  {
    forall k, c | 0 <= k < |environments| && IsClosure(lock, initial, Some(environments[k]), c) :: c.names <= records + evidence
  }

  /** What the supported environments must be like, package by package: all of the lock is reachable; what no supported
      environment needs, some Windows one does; and evidence is asked for exactly what some supported environment needs and
      another does not. */
  lemma SupportByPackage(lock: Lock, s: Support, evidence: set<string>)
    requires s.matrix != []
    ensures SupportHolds(lock, s, evidence) <==>
      && (forall n :: n in lock <==> n in s.all.names)
      && (forall n | n in s.all.names :: Somewhere(s.matrix, n) || Somewhere(s.windows, n))
      && (forall n :: n in evidence <==> Somewhere(s.matrix, n) && !Everywhere(s.matrix, n))
  {
    hide UnionNames, CommonNames, Somewhere, Everywhere;
    forall n
      ensures n in UnionNames(s.matrix) <==> Somewhere(s.matrix, n)
      ensures n in UnionNames(s.windows) <==> Somewhere(s.windows, n)
      ensures n in CommonNames(s.matrix) <==> Everywhere(s.matrix, n)
    {
      InUnion(s.matrix, n);
      InUnion(s.windows, n);
      InCommon(s.matrix, n);
    }
    assert (forall n :: n in lock <==> n in s.all.names) ==> s.all.names == lock.Keys;
    assert (forall n :: n in evidence <==> Somewhere(s.matrix, n) && !Everywhere(s.matrix, n)) ==>
      evidence == UnionNames(s.matrix) - CommonNames(s.matrix);
  }

  ghost predicate Somewhere(closures: seq<Closure>, n: string) { exists i :: 0 <= i < |closures| && n in closures[i].names }
  ghost predicate Everywhere(closures: seq<Closure>, n: string) { forall i | 0 <= i < |closures| :: n in closures[i].names }

  lemma InUnion(closures: seq<Closure>, n: string)
    ensures n in UnionNames(closures) <==> Somewhere(closures, n)
  {
    if i :| 0 <= i < |closures| && n in closures[i].names { assert closures[i] in closures; }
  }

  lemma InCommon(closures: seq<Closure>, n: string)
    requires closures != []
    ensures n in CommonNames(closures) <==> Everywhere(closures, n)
  {
  }

  /** If some supported environment evaluates the lock's markers as the host does, a passing inventory covers every
      supported environment. */
  lemma PassingInventoryCovers(
    lock: Lock, runtime: seq<Dependency>, dev: seq<Dependency>, environments: seq<Environment>, windows: seq<Environment>,
    host: Environment, policy: Policy, inventory: seq<Record>, k: nat)
    requires k < |environments| && Agree(lock, runtime + dev, host, environments[k])
    requires InventoryHolds(lock, runtime, dev, environments, windows, host, policy, inventory)
    ensures Covered(lock, runtime + dev, environments, policy.evidence.Keys, RecordedNames(inventory))
  {
    hide IsClosure, Agree, ExceptionsHold, EvidenceHolds, RecordHolds, RecordedNames;
    var initial := runtime + dev;
    var s: Support, current: Closure :|
      && IsSupport(lock, initial, environments, windows, s) && SupportHolds(lock, s, policy.evidence.Keys)
      && IsClosure(lock, initial, Some(host), current) && HostHolds(s.matrix, current, RecordedNames(inventory));
    AgreeingEnvironments(lock, initial, host, environments[k], current);
    ClosureIsUnique(lock, initial, initial, Some(environments[k]), current, s.matrix[k]);
    forall j, c | 0 <= j < |environments| && IsClosure(lock, initial, Some(environments[j]), c)
      ensures c.names <= RecordedNames(inventory) + policy.evidence.Keys
    {
      ClosureIsUnique(lock, initial, initial, Some(environments[j]), c, s.matrix[j]);
      forall n | n in s.matrix[j].names ensures n in RecordedNames(inventory) + policy.evidence.Keys {
        assert s.matrix[j] in s.matrix;
      }
    }
  }
}
