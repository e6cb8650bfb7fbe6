/** Dependency cycle detection (packages/orchestrator/src/dependency-resolution/resolve.ts): a three-colour depth-first search. */
module Resolve {
  import opened Options

  datatype Dependencies = Dependencies(plugins: seq<string>, roles: seq<string>)

  type Graph = map<string, seq<string>>

  /** The plugins bound to the required roles; an unbound role contributes nothing. */
  function BoundPlugins(required: seq<string>, roles: map<string, string>): (r: seq<string>)
    ensures forall q :: q in r <==> q != "" && exists i :: 0 <= i < |required| && required[i] in roles && roles[required[i]] == q
  {
    if required == [] then []
    else
      var n := |required| - 1;
      var before := BoundPlugins(required[..n], roles);
      assert forall i :: 0 <= i < n ==> required[..n][i] == required[i];
      if required[n] in roles && roles[required[n]] != "" then before + [roles[required[n]]] else before
  }

  function BuildGraph(manifests: map<string, Dependencies>, roles: map<string, string>): Graph {
    map p | p in manifests :: manifests[p].plugins + BoundPlugins(manifests[p].roles, roles)
  }

  /** Plugin `p` needs plugin `q`, by name or through the role `q` is bound to. */
  ghost predicate DependsOn(manifests: map<string, Dependencies>, roles: map<string, string>, p: string, q: string) {
    && p in manifests
    && (|| q in manifests[p].plugins
        || (q != "" && exists i :: 0 <= i < |manifests[p].roles| && manifests[p].roles[i] in roles && roles[manifests[p].roles[i]] == q))
  }

  function Successors(graph: Graph, p: string): seq<string> { if p in graph then graph[p] else [] }

  ghost predicate IsWalk(graph: Graph, w: seq<string>) {
    forall i :: 0 <= i < |w| - 1 ==> w[i + 1] in Successors(graph, w[i])
  }

  ghost predicate Distinct(s: seq<string>) { forall i, j :: 0 <= i < j < |s| ==> s[i] != s[j] }

  ghost predicate IsCycle(graph: Graph, c: seq<string>) { |c| >= 2 && c[0] == c[|c| - 1] && IsWalk(graph, c) }

  ghost predicate IsSimpleCycle(graph: Graph, c: seq<string>) { IsCycle(graph, c) && Distinct(c[..|c| - 1]) }

  datatype Color = Gray | Black

  /** Every node's successors stand before it. */
  ghost predicate Topological(graph: Graph, order: seq<string>) {
    forall i, q :: 0 <= i < |order| && q in Successors(graph, order[i]) ==> q in order[..i]
  }

  /** Grey nodes are the search path, black nodes the finished ones, in an order in which all edges point backwards. */
  ghost predicate Consistent(graph: Graph, color: map<string, Color>, path: seq<string>, finished: seq<string>) {
    && Distinct(path) && IsWalk(graph, path)
    && (forall n :: n in color && color[n] == Gray <==> n in path)
    && (forall n :: n in color && color[n] == Black <==> n in finished)
    && Topological(graph, finished)
  }

  lemma Enter(graph: Graph, color: map<string, Color>, path: seq<string>, finished: seq<string>, node: string)
    requires Consistent(graph, color, path, finished) && node !in color
    requires path != [] ==> node in Successors(graph, path[|path| - 1])
    ensures Consistent(graph, color[node := Gray], path + [node], finished)
  {
    hide Topological, Successors;
  }

  lemma Leave(graph: Graph, color: map<string, Color>, path: seq<string>, finished: seq<string>, node: string)
    requires Consistent(graph, color, path + [node], finished)
    requires forall q :: q in Successors(graph, node) ==> q in finished
    ensures Consistent(graph, color[node := Black], path, finished + [node])
  {
    assert (path + [node])[..|path|] == path;
    assert Distinct(path) && node !in path by {
      assert forall i :: 0 <= i < |path| ==> (path + [node])[i] != (path + [node])[|path|];
    }
    assert IsWalk(graph, path) by {
      assert forall i :: 0 <= i < |path| ==> (path + [node])[i] == path[i];
    }
    TopologicalSnoc(graph, finished, node);
  }

  lemma TopologicalSnoc(graph: Graph, order: seq<string>, node: string)
    requires Topological(graph, order) && forall q :: q in Successors(graph, node) ==> q in order
    ensures Topological(graph, order + [node])
  {
    hide Successors;
    var more := order + [node];
    forall i, q | 0 <= i < |more| && q in Successors(graph, more[i])
      ensures q in more[..i]
    {
      assert more[..i] == order[..i];
    }
  }

  /** Meeting a grey node again closes a cycle: the path from that node on, and back to it. */
  lemma CloseCycle(graph: Graph, path: seq<string>, start: nat, next: string)
    requires Distinct(path) && IsWalk(graph, path) && start < |path| && path[start] == next
    requires next in Successors(graph, path[|path| - 1])
    ensures IsSimpleCycle(graph, path[start..] + [next])
  {
    hide Successors;
    var c := path[start..] + [next];
    assert c[..|c| - 1] == path[start..];
    forall i | 0 <= i < |c| - 1
      ensures c[i + 1] in Successors(graph, c[i])
    {
      assert c[i] == path[start + i];
    }
  }

  function IndexIn(s: seq<string>, x: string): (i: nat)
    requires x in s
    ensures i < |s| && s[i] == x
  {
    if s[0] == x then 0 else 1 + IndexIn(s[1..], x)
  }

  class CycleDetector {
    const graph: Graph
    var color: map<string, Color>   // a node without an entry is white
    var path: seq<string>
    ghost var finished: seq<string> // the black nodes in the order they were left

    constructor (graph: Graph)
      ensures this.graph == graph && color == map[] && path == [] && finished == []
    {
      this.graph, color, path, finished := graph, map[], [], [];
    }

    ghost predicate Valid()
      reads this
    {
      Consistent(graph, color, path, finished)
    }

    method Visit(node: string, ghost universe: set<string>) returns (cycle: Option<seq<string>>)
      requires Valid() && node !in color && node in universe && color.Keys <= universe
      requires forall p, q :: p in universe && q in Successors(graph, p) ==> q in universe
      requires path != [] ==> node in Successors(graph, path[|path| - 1])
      modifies this
      ensures color.Keys <= universe && old(color).Keys <= color.Keys
      ensures cycle.Some? ==> IsSimpleCycle(graph, cycle.value)
      ensures cycle.None? ==> Valid() && path == old(path) && node in finished && old(finished) <= finished
      decreases universe - color.Keys
    {
      hide Consistent, Successors, IsSimpleCycle, IsCycle;
      Enter(graph, color, path, finished, node);
      color := color[node := Gray];
      path := path + [node];
      var edges := Successors(graph, node);
      for i := 0 to |edges|
        invariant Valid() && path == old(path) + [node] && old(finished) <= finished && color.Keys <= universe
        invariant old(color).Keys + {node} <= color.Keys
        invariant forall k :: 0 <= k < i ==> edges[k] in finished
      {
        var next := edges[i];
        Colors(graph, color, path, finished, next);
        if next in color && color[next] == Gray {
          var start := IndexIn(path, next);
          CloseCycle(graph, path, start, next);
          return Some(path[start..] + [next]);
        }
        if next !in color {
          cycle := Visit(next, universe);
          if cycle.Some? {
            return;
          }
        }
      }
      Leave(graph, color, old(path), finished, node);
      path := path[..|path| - 1];
      color := color[node := Black];
      finished := finished + [node];
      cycle := None;
    }
  }

  lemma Colors(graph: Graph, color: map<string, Color>, path: seq<string>, finished: seq<string>, n: string)
    requires Consistent(graph, color, path, finished)
    ensures Distinct(path) && IsWalk(graph, path)
    ensures n in color && color[n] == Gray <==> n in path
    ensures n in color && color[n] == Black <==> n in finished
  {
  }

  /** In a topological order every step of a walk goes strictly backwards, so a finished node lies on no cycle. */
  lemma {:induction false} WalkGoesBack(graph: Graph, order: seq<string>, w: seq<string>, i: nat) returns (k: nat)
    requires Topological(graph, order) && IsWalk(graph, w) && i < |w| && w[0] in order
    ensures k < |order| && order[k] == w[i] && k + i <= IndexIn(order, w[0])
  {
    if i == 0 {
      k := IndexIn(order, w[0]);
    } else {
      var j := WalkGoesBack(graph, order, w, i - 1);
      assert w[(i - 1) + 1] in Successors(graph, w[i - 1]);
      assert w[i] in order[..j];
      k := IndexIn(order[..j], w[i]);
    }
  }

  /** The first position of an element. */
  lemma {:induction false} FirstIndex(s: seq<string>, x: string, k: nat)
    requires x in s && k < |s| && s[k] == x
    ensures IndexIn(s, x) <= k
  {
    if s[0] != x {
      FirstIndex(s[1..], x, k - 1);
    }
  }

  lemma NoCycleWhenAllFinished(graph: Graph, order: seq<string>, c: seq<string>)
    requires Topological(graph, order) && forall p :: p in graph ==> p in order
    ensures !IsCycle(graph, c)
  {
    if IsCycle(graph, c) {
      assert c[0 + 1] in Successors(graph, c[0]);
      var k := WalkGoesBack(graph, order, c, |c| - 1);
      FirstIndex(order, c[0], k);
    }
  }

  /** All nodes the search can meet. */
  ghost function Universe(graph: Graph): set<string> {
    graph.Keys + set p, i | p in graph && 0 <= i < |graph[p]| :: graph[p][i]
  }

  /**
   detectCycle over the plugins in the order in which their manifests were loaded: the answer, if any, is a simple cycle of the
   dependency graph, and there is an answer exactly when the graph has a cycle at all.
   */
  method DetectCycle(manifests: map<string, Dependencies>, roles: map<string, string>, loaded: seq<string>) returns (cycle: Option<seq<string>>)
    requires forall p :: p in loaded <==> p in manifests
    ensures cycle.Some? ==> IsSimpleCycle(BuildGraph(manifests, roles), cycle.value)
    ensures cycle.None? <==> forall c :: !IsCycle(BuildGraph(manifests, roles), c)
  {
    hide Consistent, Successors, IsCycle, Topological;
    var graph := BuildGraph(manifests, roles);
    var d := new CycleDetector(graph);
    StartConsistent(graph);
    UniverseClosed(graph);
    for i := 0 to |loaded|
      invariant d.Valid() && d.path == [] && d.color.Keys <= Universe(graph)
      invariant forall k :: 0 <= k < i ==> loaded[k] in d.finished
    {
      var node := loaded[i];
      Colors(graph, d.color, d.path, d.finished, node);
      if node !in d.color {
        cycle := d.Visit(node, Universe(graph));
        if cycle.Some? {
          return;
        }
      }
    }
    cycle := None;
    forall c
      ensures !IsCycle(graph, c)
    {
      FinishedIsTopological(graph, d.color, d.path, d.finished);
      NoCycleWhenAllFinished(graph, d.finished, c);
    }
  }

  lemma FinishedIsTopological(graph: Graph, color: map<string, Color>, path: seq<string>, finished: seq<string>)
    requires Consistent(graph, color, path, finished)
    ensures Topological(graph, finished)
  {
  }

  lemma StartConsistent(graph: Graph)
    ensures Consistent(graph, map[], [], [])
  {
  }

  lemma UniverseClosed(graph: Graph)
    ensures forall p, q :: p in Universe(graph) && q in Successors(graph, p) ==> q in Universe(graph)
  {
  }

  /** The edges of the searched graph are the declared dependencies. */
  lemma GraphEdges(manifests: map<string, Dependencies>, roles: map<string, string>, p: string, q: string)
    ensures q in Successors(BuildGraph(manifests, roles), p) <==> DependsOn(manifests, roles, p, q)
  {
  }
}
