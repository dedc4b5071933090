/**
 The dependency-cycle finder of the architecture linter (`_cycles` in pipeline/architecture.py).
 */
module DependencyCycles {
  import opened Common

  /** Declared components in declaration order, and the dependency targets of each. */
  datatype Graph = Graph(order: seq<string>, deps: map<string, seq<string>>)

  predicate ValidGraph(g: Graph) {
    && (forall id | id in g.order :: id in g.deps)
    && (forall id | id in g.deps :: id in g.order)
  }

  predicate Edge(g: Graph, from: string, to: string) {
    from in g.deps && to in g.deps[from]
  }

  /** Consecutive components depend on each other, all of them declared. */
  ghost predicate Walk(g: Graph, path: seq<string>) {
    && (forall i | 0 <= i < |path| :: path[i] in g.deps)
    && forall i | 0 <= i < |path| - 1 :: Edge(g, path[i], path[i + 1])
  }

  ghost predicate IsCycle(g: Graph, path: seq<string>) {
    |path| >= 2 && Walk(g, path) && path[0] == path[|path| - 1]
  }

  // ---------------------------------------------------------------- why no cycle is missed

  /** Every declared dependency of a finished component finished before it. */
  ghost predicate Settled(g: Graph, done: seq<string>) {
    forall i, to | 0 <= i < |done| && Edge(g, done[i], to) && to in g.deps :: to in done[..i]
  }

  lemma {:induction false} WalkSinks(g: Graph, done: seq<string>, path: seq<string>, i: nat)
    requires Settled(g, done) && Walk(g, path) && |path| >= 2
    requires i < |done| && done[i] == path[0]
    ensures exists j | 0 <= j < i :: done[j] == path[|path| - 1]
    decreases |path|
  {
    assert Edge(g, path[0], path[0 + 1]);
    assert path[1] in done[..i];
    var k :| 0 <= k < i && done[k] == path[1];
    if |path| > 2 {
      var tail := path[1..];
      forall m | 0 <= m < |tail| - 1 ensures Edge(g, tail[m], tail[m + 1]) {
        assert Edge(g, path[m + 1], path[m + 1 + 1]);
      }
      WalkSinks(g, done, tail, k);
    }
  }

  /** A graph whose components all finished in such an order has no cycle. */
  lemma SettledIsAcyclic(g: Graph, done: seq<string>)
    requires Settled(g, done) && Distinct(done) && forall id | id in g.deps :: id in done
    ensures forall path :: !IsCycle(g, path)
  {
    forall path | IsCycle(g, path) ensures false {
      var i :| 0 <= i < |done| && done[i] == path[0];
      WalkSinks(g, done, path, i);
    }
  }

  // ---------------------------------------------------------------- the search

  function Index(xs: seq<string>, x: string): (i: nat)
    requires x in xs
    ensures i < |xs| && xs[i] == x && x !in xs[..i]
  {
    if xs[0] == x then 0 else Index(xs[1..], x) + 1
  }

  /** The search state keeps: the stack is a walk, the reported lists are cycles, and so on. */
  ghost predicate Consistent(g: Graph, found: seq<seq<string>>, visiting: seq<string>, visited: set<string>,
                             done: seq<string>, expanded: seq<string>) {
    && ValidGraph(g)
    && Walk(g, visiting) && Distinct(visiting)
    && (forall id | id in visiting :: id !in visited)
    && (forall id :: id in visited <==> id in done)
    && (forall id | id in done :: id in g.deps)
    && Distinct(done) && Distinct(expanded)
    && (forall id :: id in expanded <==> id in done || id in visiting)
    && (forall k | 0 <= k < |found| :: IsCycle(g, found[k]))
    && Distinct(found)
    && (found == [] ==> Settled(g, done))
  }

  lemma ReportKeeps(g: Graph, found: seq<seq<string>>, visiting: seq<string>, visited: set<string>,
                    done: seq<string>, expanded: seq<string>, node: string)
    requires Consistent(g, found, visiting, visited, done, expanded)
    requires node in visiting && Edge(g, visiting[|visiting| - 1], node)
    ensures var cycle := visiting[Index(visiting, node)..] + [node];
            cycle !in found ==> Consistent(g, found + [cycle], visiting, visited, done, expanded)
  {
    CycleOnStack(g, visiting, node);
  }

  lemma EnterKeeps(g: Graph, found: seq<seq<string>>, visiting: seq<string>, visited: set<string>,
                   done: seq<string>, expanded: seq<string>, node: string)
    requires Consistent(g, found, visiting, visited, done, expanded)
    requires node in g.deps && node !in visiting && node !in visited
    requires visiting != [] ==> Edge(g, visiting[|visiting| - 1], node)
    ensures Consistent(g, found, visiting + [node], visited, done, expanded + [node])
  {
    PushWalk(g, visiting, node);
  }

  lemma LeaveKeeps(g: Graph, found: seq<seq<string>>, stack: seq<string>, visited: set<string>,
                   done: seq<string>, expanded: seq<string>, node: string)
    requires Consistent(g, found, stack + [node], visited, done, expanded)
    requires found == [] ==> forall to | Edge(g, node, to) && to in g.deps :: to in visited
    ensures Consistent(g, found, stack, visited + {node}, done + [node], expanded)
  {
    var longer := stack + [node];
    assert longer[|longer| - 1] == node && longer[..|longer| - 1] == stack;
    PopWalk(g, longer);
    SettleOne(g, done, node, found == []);
    forall id | id in stack ensures id !in visited + {node} {
      assert id in longer;
    }
    forall id ensures id in expanded <==> id in done + [node] || id in stack {
      assert id in longer <==> id in stack || id == node;
    }
  }

  class CycleFinder {
    const graph: Graph
    var found: seq<seq<string>>
    var visiting: seq<string>
    var visited: set<string>
    /** Components in the order in which their expansion finished, and started. */
    ghost var done: seq<string>
    ghost var expanded: seq<string>

    ghost predicate Valid()
      reads this
    {
      Consistent(graph, found, visiting, visited, done, expanded)
    }

    constructor (graph: Graph)
      requires ValidGraph(graph)
      ensures Valid() && this.graph == graph && found == [] && visiting == [] && visited == {} && done == []
      ensures expanded == []
    {
      this.graph := graph;
      found, visiting, visited, done, expanded := [], [], {}, [], [];
    }

    /** `walk`: expand a component unless it is finished, being expanded, or undeclared. */
    method Visit(node: string)
      requires Valid()
      requires visiting != [] ==> Edge(graph, visiting[|visiting| - 1], node)
      modifies this
      ensures Valid() && visiting == old(visiting)
      ensures old(found) <= found && old(visited) <= visited && old(expanded) <= expanded
      ensures node in graph.deps && found == [] ==> node in visited
      ensures node in graph.deps ==> node in visited || node in visiting
      decreases graph.deps.Keys - visited - (set id | id in visiting)
    {
      hide Consistent, Index;
      if node in visiting {
        ReportKeeps(graph, found, visiting, visited, done, expanded, node);
        var cycle := visiting[Index(visiting, node)..] + [node];
        if cycle !in found {
          found := found + [cycle];
        }
        return;
      }
      if node in visited || node !in graph.deps {
        return;
      }
      EnterKeeps(graph, found, visiting, visited, done, expanded, node);
      visiting := visiting + [node];
      expanded := expanded + [node];
      ghost var stack := visiting;
      var targets := graph.deps[node];
      for i := 0 to |targets|
        invariant Valid() && visiting == stack
        invariant old(found) <= found && old(visited) <= visited && old(expanded) <= expanded
        invariant found == [] ==> forall k | 0 <= k < i && targets[k] in graph.deps :: targets[k] in visited
      {
        assert node in stack && forall id | id in old(visiting) :: id in stack;
        assert node in graph.deps.Keys - old(visited) - (set id | id in old(visiting));
        Visit(targets[i]);
      }
      LeaveKeeps(graph, found, old(visiting), visited, done, expanded, node);
      assert visiting[..|visiting| - 1] == old(visiting);
      visiting := visiting[..|visiting| - 1];
      visited := visited + {node};
      done := done + [node];
    }

    /**
     All dependency cycles the search meets: none exactly when the declared graph has none, each a
     closed walk along declared edges, none twice. Every declared component is expanded exactly once.
     */
    method FindCycles()
      requires Valid() && found == [] && visiting == [] && visited == {} && done == [] && expanded == []
      modifies this
      ensures Valid() && visiting == []
      ensures found == [] <==> forall path :: !IsCycle(graph, path)
      ensures forall k | 0 <= k < |found| :: IsCycle(graph, found[k])
      ensures Distinct(found)
      ensures Distinct(expanded) && forall id :: id in expanded <==> id in graph.deps
    {
      for i := 0 to |graph.order|
        invariant Valid() && visiting == []
        invariant forall k | 0 <= k < i :: graph.order[k] in visited
      {
        assert graph.order[i] in graph.order;
        Visit(graph.order[i]);
      }
      forall id | id in graph.deps ensures id in done {
        assert id in graph.order;
      }
      if found == [] {
        SettledIsAcyclic(graph, done);
      } else {
        assert IsCycle(graph, found[0]);
      }
    }
  }

  lemma CycleOnStack(g: Graph, stack: seq<string>, node: string)
    requires Walk(g, stack) && node in stack && Edge(g, stack[|stack| - 1], node)
    ensures IsCycle(g, stack[Index(stack, node)..] + [node])
  {
    var start := Index(stack, node);
    var cycle := stack[start..] + [node];
    forall i | 0 <= i < |cycle| - 1 ensures Edge(g, cycle[i], cycle[i + 1]) {
      if i + 1 < |cycle| - 1 {
        assert Edge(g, stack[start + i], stack[start + i + 1]);
      }
    }
    assert cycle[0] == stack[start];
  }

  lemma PushWalk(g: Graph, stack: seq<string>, node: string)
    requires Walk(g, stack) && node in g.deps && (stack != [] ==> Edge(g, stack[|stack| - 1], node))
    ensures Walk(g, stack + [node])
  {
    var longer := stack + [node];
    forall i | 0 <= i < |longer| - 1 ensures Edge(g, longer[i], longer[i + 1]) {
      if i + 1 < |stack| {
        assert Edge(g, stack[i], stack[i + 1]);
      }
    }
  }

  lemma PopWalk(g: Graph, stack: seq<string>)
    requires Walk(g, stack) && |stack| > 0
    ensures Walk(g, stack[..|stack| - 1])
  {
    var shorter := stack[..|stack| - 1];
    forall i | 0 <= i < |shorter| - 1 ensures Edge(g, shorter[i], shorter[i + 1]) {
      assert Edge(g, stack[i], stack[i + 1]);
    }
  }

  lemma SettleOne(g: Graph, done: seq<string>, node: string, clean: bool)
    requires clean ==> Settled(g, done) && forall to | Edge(g, node, to) && to in g.deps :: to in done
    ensures clean ==> Settled(g, done + [node])
  {
    if clean {
      var longer := done + [node];
      forall i, to | 0 <= i < |longer| && Edge(g, longer[i], to) && to in g.deps
        ensures to in longer[..i]
      {
        if i < |done| {
          assert longer[..i] == done[..i];
          assert Edge(g, done[i], to);
        } else {
          assert longer[..i] == done;
        }
      }
    }
  }
}
