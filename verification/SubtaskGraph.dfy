/** Circular-dependency detection (src/swarm/subtask-deps.ts, detectCircularDeps). */
module SubtaskGraph {
  import opened Prelude

  datatype SubtaskRef = SubtaskRef(id: string, dependsOn: Option<seq<string>>)

  type Graph = map<string, seq<string>>

  function Deps(s: SubtaskRef): seq<string> {
    if s.dependsOn.Some? then s.dependsOn.value else []
  }

  function Ids(ts: seq<SubtaskRef>): set<string> {
    set i | 0 <= i < |ts| :: ts[i].id
  }

  ghost predicate DistinctIds(ts: seq<SubtaskRef>) {
    forall i, j :: 0 <= i < j < |ts| ==> ts[i].id != ts[j].id
  }

  /** The dependency graph; a repeated id takes the dependencies of its last occurrence. */
  function GraphOf(ts: seq<SubtaskRef>): Graph {
    if ts == [] then map[]
    else GraphOf(ts[..|ts| - 1])[ts[|ts| - 1].id := Deps(ts[|ts| - 1])]
  }

  lemma {:induction false} GraphKeys(ts: seq<SubtaskRef>)
    ensures GraphOf(ts).Keys == Ids(ts)
  {
    if ts != [] {
      var n := |ts| - 1;
      GraphKeys(ts[..n]);
      assert Ids(ts) == Ids(ts[..n]) + {ts[n].id};
    }
  }

  lemma {:induction false} GraphLookup(ts: seq<SubtaskRef>, i: nat)
    requires DistinctIds(ts) && i < |ts|
    ensures ts[i].id in GraphOf(ts) && GraphOf(ts)[ts[i].id] == Deps(ts[i])
  {
    var n := |ts| - 1;
    if i < n {
      GraphLookup(ts[..n], i);
    }
  }

  ghost predicate Edge(g: Graph, a: string, b: string) {
    a in g && b in g[a]
  }

  /** A walk along at least one dependency edge. */
  ghost predicate Walk(g: Graph, p: seq<string>) {
    |p| >= 2 && forall i :: 0 <= i < |p| - 1 ==> Edge(g, p[i], p[i + 1])
  }

  ghost predicate WalkFrom(g: Graph, p: seq<string>, a: string, b: string) {
    Walk(g, p) && p[0] == a && p[|p| - 1] == b
  }

  ghost predicate Reaches(g: Graph, a: string, b: string) {
    exists p :: WalkFrom(g, p, a, b)
  }

  ghost predicate OnCycle(g: Graph, x: string) {
    Reaches(g, x, x)
  }

  ghost predicate SelfDependent(ts: seq<SubtaskRef>, x: string) {
    exists i :: 0 <= i < |ts| && ts[i].id == x && x in Deps(ts[i])
  }

  lemma ReachesEdge(g: Graph, a: string, b: string)
    requires Edge(g, a, b)
    ensures Reaches(g, a, b)
  {
    assert WalkFrom(g, [a, b], a, b);
  }

  lemma ReachesExtend(g: Graph, a: string, b: string, c: string)
    requires Reaches(g, a, b) && Edge(g, b, c)
    ensures Reaches(g, a, c)
  {
    var p :| WalkFrom(g, p, a, b);
    assert WalkFrom(g, p + [c], a, c);
  }

  /** The closure argument: a set that holds every other-node dependency of the start
      and of its own members, but not the start, separates the start from itself. */
  lemma {:induction false} ClosedSetBlocks(g: Graph, start: string, closed: set<string>, p: seq<string>)
    requires start !in closed
    requires Walk(g, p) && p[0] == start
    requires p[|p| - 1] in g
    requires start !in g || start !in g[start]
    requires forall v, d :: (v == start || v in closed) && Edge(g, v, d) && d in g && d != v ==> d in closed
    ensures p[|p| - 1] in closed
    decreases |p|
  {
    var n := |p| - 1;
    assert Edge(g, p[n - 1], p[n]);
    if n > 1 {
      ClosedSetBlocks(g, start, closed, p[..n]);
    }
  }

  function Without(s: seq<string>, x: string): (r: seq<string>)
    ensures forall y :: y in r <==> y in s && y != x
  {
    if s == [] then []
    else if s[0] == x then Without(s[1..], x)
    else [s[0]] + Without(s[1..], x)
  }

  /** `graph` is `g` with self-references filtered out. */
  ghost predicate Stripped(g: Graph, graph: Graph) {
    graph.Keys == g.Keys && forall v :: v in g ==> graph[v] == Without(g[v], v)
  }

  /** The depth-first search of the inner loop: can `startId` reach itself? */
  method ReachesSelf(graph: Graph, startId: string, ghost g: Graph) returns (reachesSelf: bool)
    requires Stripped(g, graph) && startId in g && startId !in g[startId]
    ensures reachesSelf <==> OnCycle(g, startId)
  {
    var visited: set<string> := {};
    var stack := graph[startId];
    reachesSelf := false;
    forall d | d in stack ensures Reaches(g, startId, d) {
      ReachesEdge(g, startId, d);
    }
    while |stack| > 0
      invariant visited <= graph.Keys && startId !in visited
      invariant forall d :: d in stack ==> Reaches(g, startId, d)
      invariant forall v :: v in visited ==> Reaches(g, startId, v)
      invariant forall v, d :: (v == startId || v in visited) && Edge(g, v, d) && d in g && d != v
                               ==> d in visited || d in stack
      decreases graph.Keys - visited, |stack|
    {
      var current := stack[|stack| - 1];
      ghost var before := stack;
      stack := stack[..|stack| - 1];
      assert forall d :: d in before ==> d in stack || d == current;
      if current == startId {
        reachesSelf := true;
        return;
      }
      if current in visited || current !in graph {
        continue;
      }
      visited := visited + {current};
      forall d | d in graph[current] ensures Reaches(g, startId, d) {
        ReachesExtend(g, startId, current, d);
      }
      stack := stack + graph[current];
    }
    if OnCycle(g, startId) {
      var p :| WalkFrom(g, p, startId, startId);
      ClosedSetBlocks(g, startId, visited, p);
    }
  }

  /** detectCircularDeps: the exact set of ids that depend on themselves through one or
      more dependency edges (or that list themselves directly). */
  method DetectCircularDeps(subtasks: seq<SubtaskRef>) returns (cycleNodes: set<string>)
    ensures forall x :: x in cycleNodes <==>
                        x in Ids(subtasks) && (SelfDependent(subtasks, x) || OnCycle(GraphOf(subtasks), x))
  {
    var graph: Graph := map[];
    var ids: seq<string> := [];
    for i := 0 to |subtasks|
      invariant Stripped(GraphOf(subtasks[..i]), graph)
      invariant Elements(ids) == Ids(subtasks[..i])
    {
      var s := subtasks[i];
      assert subtasks[..i + 1][..i] == subtasks[..i];
      assert Ids(subtasks[..i + 1]) == Ids(subtasks[..i]) + {s.id};
      graph := graph[s.id := Without(Deps(s), s.id)];
      if s.id !in ids {
        ids := ids + [s.id];
      }
    }
    assert subtasks[..|subtasks|] == subtasks;
    GraphKeys(subtasks);

    cycleNodes := {};
    for i := 0 to |subtasks|
      invariant forall x :: x in cycleNodes <==> exists j :: 0 <= j < i && subtasks[j].id == x && x in Deps(subtasks[j])
    {
      if subtasks[i].id in Deps(subtasks[i]) {
        cycleNodes := cycleNodes + {subtasks[i].id};
      }
    }
    ghost var selfLoops := cycleNodes;
    assert forall x :: x in selfLoops <==> SelfDependent(subtasks, x);

    ghost var g := GraphOf(subtasks);
    for k := 0 to |ids|
      invariant forall x :: x in cycleNodes <==> x in selfLoops || (x in ids[..k] && OnCycle(g, x))
    {
      var startId := ids[k];
      assert forall x :: x in ids[..k + 1] <==> x in ids[..k] || x == startId;
      if startId !in cycleNodes {
        assert startId in Elements(ids);
        LastOccurrence(subtasks, startId);
        var reachesSelf := ReachesSelf(graph, startId, g);
        if reachesSelf {
          cycleNodes := cycleNodes + {startId};
        }
      }
    }
    assert ids[..|ids|] == ids;
    assert forall x :: x in ids <==> x in Elements(ids);
  }

  lemma {:induction false} LastOccurrence(ts: seq<SubtaskRef>, x: string)
    requires x in Ids(ts)
    ensures x in GraphOf(ts)
    ensures exists i :: 0 <= i < |ts| && ts[i].id == x && GraphOf(ts)[x] == Deps(ts[i])
  {
    var n := |ts| - 1;
    if ts[n].id != x {
      assert x in Ids(ts[..n]);
      LastOccurrence(ts[..n], x);
      var i :| 0 <= i < n && ts[..n][i].id == x && GraphOf(ts[..n])[x] == Deps(ts[..n][i]);
      assert ts[i].id == x;
    }
  }

  /** For distinct ids the result is exactly the ids on a cycle of `dependsOn`. */
  lemma DistinctIdsGiveCycles(ts: seq<SubtaskRef>, x: string)
    requires DistinctIds(ts)
    ensures x in Ids(ts) && (SelfDependent(ts, x) || OnCycle(GraphOf(ts), x)) <==> OnCycle(GraphOf(ts), x)
  {
    GraphKeys(ts);
    if SelfDependent(ts, x) {
      var i :| 0 <= i < |ts| && ts[i].id == x && x in Deps(ts[i]);
      GraphLookup(ts, i);
      ReachesEdge(GraphOf(ts), x, x);
    }
    if OnCycle(GraphOf(ts), x) {
      var p :| WalkFrom(GraphOf(ts), p, x, x);
      assert Edge(GraphOf(ts), p[0], p[1]);
    }
  }

  ghost predicate WaitsWithin(g: Graph, v: string, waiting: set<string>) {
    exists d :: d in waiting && Edge(g, v, d)
  }

  lemma DependencyWithin(g: Graph, v: string, waiting: set<string>) returns (d: string)
    requires WaitsWithin(g, v, waiting)
    ensures d in waiting && Edge(g, v, d)
  {
    d :| d in waiting && Edge(g, v, d);
  }

  lemma CycleAtRepeat(g: Graph, p: seq<string>, i: nat, j: nat)
    requires forall k :: 0 <= k < |p| - 1 ==> Edge(g, p[k], p[k + 1])
    requires i < j < |p| && p[i] == p[j]
    ensures OnCycle(g, p[i])
  {
    var q := p[i..j + 1];
    forall k | 0 <= k < |q| - 1 ensures Edge(g, q[k], q[k + 1]) {
      assert q[k] == p[i + k] && q[k + 1] == p[i + k + 1];
    }
    assert WalkFrom(g, q, p[i], p[i]);
  }

  /** In a non-empty set where every member depends on another member, some member is on a cycle. */
  lemma EveryoneWaitsMeansCycle(g: Graph, waiting: set<string>) returns (x: string)
    requires waiting != {}
    requires forall v :: v in waiting ==> WaitsWithin(g, v, waiting)
    ensures x in waiting && OnCycle(g, x)
  {
    hide WaitsWithin, OnCycle, Edge;
    var p := LongWalk(g, waiting, |waiting|);
    Pigeonhole(p, waiting);
    var i, j :| 0 <= i < j < |p| && p[i] == p[j];
    x := p[i];
    CycleAtRepeat(g, p, i, j);
  }

  lemma {:induction false} LongWalk(g: Graph, waiting: set<string>, n: nat) returns (p: seq<string>)
    requires waiting != {}
    requires forall v :: v in waiting ==> WaitsWithin(g, v, waiting)
    ensures |p| == n + 1 && forall i :: 0 <= i < |p| ==> p[i] in waiting
    ensures forall i :: 0 <= i < |p| - 1 ==> Edge(g, p[i], p[i + 1])
    decreases n
  {
    hide WaitsWithin, Edge;
    if n == 0 {
      var v :| v in waiting;
      p := [v];
    } else {
      var q := LongWalk(g, waiting, n - 1);
      var d := DependencyWithin(g, q[n - 1], waiting);
      p := q + [d];
    }
  }
}
