/** Cycle rejection over a study map's relationships, by depth-first search. */
module StudyGraph {
  /** What each node depends on. */
  type Graph = map<string, seq<string>>

  /** Every edge leads to a known node. */
  predicate Closed(graph: Graph) {
    forall n | n in graph :: forall d | d in graph[n] :: d in graph
  }

  predicate Edge(graph: Graph, a: string, b: string) {
    a in graph && b in graph[a]
  }

  predicate Walk(graph: Graph, path: seq<string>) {
    forall i | 0 < i < |path| :: Edge(graph, path[i - 1], path[i])
  }

  predicate Cycle(graph: Graph, path: seq<string>) {
    |path| >= 2 && path[0] == path[|path| - 1] && Walk(graph, path)
  }

  ghost predicate Cyclic(graph: Graph) {
    exists path :: Cycle(graph, path)
  }

  /** Every dependency of a listed node is listed before it. */
  predicate Ordered(graph: Graph, order: seq<string>) {
    && (forall i, j | 0 <= i < j < |order| :: order[i] != order[j])
    && forall i | 0 <= i < |order| :: order[i] in graph && forall d | d in graph[order[i]] :: d in order[..i]
  }

  /** The order lists every node once, dependencies first. */
  predicate TopologicalOrder(graph: Graph, order: seq<string>) {
    Ordered(graph, order) && forall n | n in graph :: n in order
  }

  /** Along a walk the positions in a topological order go down. */
  lemma {:induction false} WalksGoDown(graph: Graph, order: seq<string>, path: seq<string>, i: nat, j: nat)
    requires TopologicalOrder(graph, order) && Walk(graph, path) && |path| >= 2
    requires i < |order| && j < |order| && order[i] == path[0] && order[j] == path[|path| - 1]
    ensures j < i
    decreases |path|
  {
    assert Edge(graph, path[0], path[1]);
    var k :| 0 <= k < i && order[k] == path[1];
    if |path| > 2 {
      var rest := path[1..];
      assert forall n | 0 < n < |rest| :: rest[n - 1] == path[n] && rest[n] == path[n + 1];
      WalksGoDown(graph, order, rest, k, j);
    }
  }

  /** A graph with a topological order has no cycle. */
  lemma OrderExcludesCycles(graph: Graph, order: seq<string>)
    requires TopologicalOrder(graph, order)
    ensures !Cyclic(graph)
  {
    forall path
      ensures !Cycle(graph, path)
    {
      if Cycle(graph, path) {
        assert Edge(graph, path[0], path[1]);
        var i :| 0 <= i < |order| && order[i] == path[0];
        WalksGoDown(graph, order, path, i, i);
      }
    }
  }

  lemma WalkExtends(graph: Graph, path: seq<string>, node: string)
    requires Walk(graph, path) && (path != [] ==> Edge(graph, path[|path| - 1], node))
    ensures Walk(graph, path + [node])
  {}

  lemma OrderExtends(graph: Graph, order: seq<string>, node: string)
    requires Ordered(graph, order) && node in graph && node !in order
    requires forall k | 0 <= k < |graph[node]| :: graph[node][k] in order
    ensures Ordered(graph, order + [node])
  {
    var longer := order + [node];
    forall i | 0 <= i < |longer|
      ensures longer[i] in graph && forall d | d in graph[longer[i]] :: d in longer[..i]
    {
      if i < |order| {
        assert longer[..i] == order[..i];
      } else {
        assert longer[..i] == order;
      }
    }
  }

  /** One run of the search: the nodes it is inside of, and the nodes it is done with. */
  class Search {
    const graph: Graph
    var visiting: set<string>
    var visited: set<string>
    ghost var stack: seq<string>
    ghost var finished: seq<string>

    constructor (graph: Graph)
      ensures this.graph == graph && Valid() && stack == [] && finished == []
    {
      this.graph, visiting, visited, stack, finished := graph, {}, {}, [], [];
    }

    /** The nodes being visited form a walk, the visited ones a list with dependencies first. */
    ghost predicate Valid()
      reads this
    {
      && Closed(graph) ==>
        && (forall n :: n in visiting <==> n in stack) && visiting <= graph.Keys && Walk(graph, stack)
        && (forall n :: n in visited <==> n in finished) && Ordered(graph, finished)
        && visiting !! visited
    }

    /** Follows every dependency first; a node met while it is being visited closes a cycle. */
    method Visit(node: string) returns (raised: bool)
      requires Closed(graph) && Valid() && node in graph
      requires stack != [] ==> Edge(graph, stack[|stack| - 1], node)
      modifies this
      ensures raised ==> Cyclic(graph)
      ensures !raised ==>
                && Valid() && stack == old(stack) && visiting == old(visiting)
                && old(visited) <= visited && node in visited && old(finished) <= finished
      decreases graph.Keys - visiting
    {
      if node in visiting {
        ClosesCycle(node);
        return true;
      }
      if node in visited { return false; }
      WalkExtends(graph, stack, node);
      hide Walk, Ordered;
      visiting, stack := visiting + {node}, stack + [node];
      ghost var inside := stack;
      var dependencies := graph[node];
      for i := 0 to |dependencies|
        invariant Valid() && stack == inside && visiting == old(visiting) + {node}
        invariant old(visited) <= visited && old(finished) <= finished
        invariant forall k | 0 <= k < i :: dependencies[k] in visited
      {
        assert dependencies[i] in graph[node];
        assert graph.Keys - visiting < graph.Keys - old(visiting);
        var closed := Visit(dependencies[i]);
        if closed { return true; }
      }
      OrderExtends(graph, finished, node);
      visiting, stack := visiting - {node}, stack[..|stack| - 1];
      assert stack == old(stack);
      visited, finished := visited + {node}, finished + [node];
      raised := false;
    }

    lemma ClosesCycle(node: string)
      requires Closed(graph) && Valid() && node in visiting
      requires Edge(graph, stack[|stack| - 1], node)
      ensures Cyclic(graph)
    {
      var i :| 0 <= i < |stack| && stack[i] == node;
      var path := stack[i..] + [node];
      forall k | 0 < k < |path|
        ensures Edge(graph, path[k - 1], path[k])
      {
        if k < |path| - 1 {
          assert Edge(graph, stack[i + k - 1], stack[i + k]);
        }
      }
      assert Cycle(graph, path);
    }
  }

  /** Raises exactly when the relationships have a cycle; otherwise the visiting order is a topological order. */
  method RejectGraphCycle(graph: Graph) returns (raised: bool, ghost order: seq<string>)
    requires Closed(graph)
    ensures raised <==> Cyclic(graph)
    ensures !raised ==> TopologicalOrder(graph, order)
  {
    order := [];
    var search := new Search(graph);
    var left := graph.Keys;
    while left != {}
      invariant search.graph == graph && search.Valid() && search.stack == [] && left <= graph.Keys
      invariant forall n | n in graph && n !in left :: n in search.visited
      invariant fresh(search)
      decreases |left|
    {
      var node :| node in left;
      raised := search.Visit(node);
      if raised { return; }
      left := left - {node};
    }
    order := search.finished;
    OrderExcludesCycles(graph, order);
    raised := false;
  }
}
