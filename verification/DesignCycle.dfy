/**
 The design rule's cycle finding: a recursive search over the planned relations
 whose set of finished nodes is shared by all roots.
 */
module DesignCycle {
  import opened Ordering
  import opened GraphPaths

  datatype Claim = Claim(kind: string, source: string, target: string)

  type DesignGraph = map<string, set<string>>

  predicate Planned(c: Claim) {
    c.kind == "planned_relation" && c.source != "" && c.target != ""
  }

  /** The planned relations that name both ends. */
  ghost function PlannedRelations(claims: seq<Claim>): set<(string, string)> {
    set k | 0 <= k < |claims| && claims[k].kind == "planned_relation" && "" !in {claims[k].source, claims[k].target} ::
      (claims[k].source, claims[k].target)
  }

  ghost function Edges(graph: DesignGraph): set<(string, string)> {
    set s, t | s in graph && t in graph[s] :: (s, t)
  }

  method BuildGraph(claims: seq<Claim>) returns (graph: DesignGraph)
    ensures Edges(graph) == PlannedRelations(claims)
    ensures forall s :: s in graph ==> graph[s] != {}
  {
    graph := map[];
    for i := 0 to |claims|
      invariant forall s, t :: s in graph && t in graph[s] <==>
                  exists k :: 0 <= k < i && Planned(claims[k]) && (claims[k].source, claims[k].target) == (s, t)
      invariant forall s :: s in graph ==> graph[s] != {}
    {
      var c := claims[i];
      if Planned(c) {
        graph := graph[c.source := (if c.source in graph then graph[c.source] else {}) + {c.target}];
      }
    }
  }

  ghost function Nodes(edges: set<(string, string)>): set<string> {
    (set e | e in edges :: e.0) + (set e | e in edges :: e.1)
  }

  /** Finished nodes: closed under the relations and on no cycle. */
  ghost predicate Settled(edges: set<(string, string)>, done: set<string>) {
    && (forall x, y :: x in done && (x, y) in edges ==> y in done)
    && forall v :: v in done ==> !Reaches(edges, v, v)
  }

  lemma {:induction false} SettleNode(edges: set<(string, string)>, done: set<string>, node: string)
    requires Settled(edges, done) && node !in done
    requires forall y :: (node, y) in edges ==> y in done
    ensures Settled(edges, done + {node})
  {
    if Reaches(edges, node, node) {
      var m := FirstStep(edges, node, node);
      if m != node {
        ClosedUnderReach(edges, done, m, node);
      }
    }
  }

  lemma {:induction false} RepeatClosesCycle(edges: set<(string, string)>, stack: seq<string>, node: string)
    requires IsPath(edges, stack) && (stack[|stack| - 1], node) in edges && node in stack
    ensures Reaches(edges, node, node)
  {
    var i :| 0 <= i < |stack| && stack[i] == node;
    EdgeReaches(edges, stack[|stack| - 1], node);
    if i < |stack| - 1 {
      SubWalk(edges, stack, i, |stack| - 1);
      ReachesTransitive(edges, node, stack[|stack| - 1], node);
    }
  }

  ghost function Members(stack: seq<string>): set<string> {
    set v | v in stack
  }

  class CycleSearch {
    const graph: DesignGraph
    var active: set<string>
    var done: set<string>

    constructor (graph: DesignGraph)
      ensures this.graph == graph && active == {} && done == {}
    {
      this.graph := graph;
      active, done := {}, {};
    }

    /** `stack` is the chain of calls in progress: a path of relations down to `node`. */
    ghost predicate Searching(stack: seq<string>, node: string)
      reads this
    {
      && active == Members(stack)
      && (stack != [] ==> IsPath(Edges(graph), stack) && (stack[|stack| - 1], node) in Edges(graph))
      && Settled(Edges(graph), done)
      && active !! done
      && active <= Nodes(Edges(graph))
    }

    method Visit(node: string, ghost stack: seq<string>) returns (found: bool)
      requires Searching(stack, node) && node in Nodes(Edges(graph))
      modifies this
      ensures found ==> exists v :: Reaches(Edges(graph), v, v)
      ensures !found ==>
                && active == old(active) && old(done) <= done && node in done
                && Settled(Edges(graph), done) && active !! done
      decreases Nodes(Edges(graph)) - active
    {
      ghost var edges := Edges(graph);
      if node in active {
        RepeatClosesCycle(edges, stack, node);
        return true;
      }
      if node in done {
        return false;
      }
      active := active + {node};
      ghost var chain := stack + [node];
      ChainGrows(edges, stack, node);
      var todo := if node in graph then graph[node] else {};
      while todo != {}
        invariant active == old(active) + {node} && active == Members(chain)
        invariant old(done) <= done && Settled(edges, done) && active !! done
        invariant todo <= if node in graph then graph[node] else {}
        invariant forall t :: (node, t) in edges && t !in todo ==> t in done
        decreases todo
      {
        var target :| target in todo;
        assert (node, target) in edges;
        assert target in Nodes(edges) by { assert (node, target).1 == target; }
        found := Visit(target, chain);
        if found {
          return true;
        }
        todo := todo - {target};
      }
      SettleNode(edges, done, node);
      active := active - {node};
      done := done + {node};
      found := false;
    }

    method AnyCycle() returns (found: bool)
      requires active == {} && done == {}
      requires forall s :: s in graph ==> graph[s] != {}
      modifies this
      ensures found <==> exists v :: Reaches(Edges(graph), v, v)
    {
      hide Reaches, SortedKeys;
      ghost var edges := Edges(graph);
      var roots := SortKeys(graph.Keys);
      SortedKeysMeaning(graph.Keys);
      for i := 0 to |roots|
        invariant Settled(edges, done) && active == {}
        invariant forall j :: 0 <= j < i ==> roots[j] in done
      {
        active := {};
        assert roots[i] in graph by { assert roots[i] in roots; }
        assert roots[i] in Nodes(edges) by {
          var t :| t in graph[roots[i]];
          assert (roots[i], t) in edges && (roots[i], t).0 == roots[i];
        }
        found := Visit(roots[i], []);
        if found {
          return true;
        }
      }
      found := false;
      forall s | s in graph ensures s in done {
        assert s in roots;
      }
      forall v ensures !Reaches(edges, v, v) {
        CycleNodeIsRoot(graph, v);
      }
    }
  }

  lemma {:induction false} CycleNodeIsRoot(graph: DesignGraph, v: string)
    ensures Reaches(Edges(graph), v, v) ==> v in graph
  {
    if Reaches(Edges(graph), v, v) {
      var m := FirstStep(Edges(graph), v, v);
    }
  }

  lemma {:induction false} ChainGrows(edges: set<(string, string)>, stack: seq<string>, node: string)
    requires stack != [] ==> IsPath(edges, stack) && (stack[|stack| - 1], node) in edges
    ensures IsPath(edges, stack + [node]) && Members(stack + [node]) == Members(stack) + {node}
  {
  }

  /** The cycle finding is emitted exactly when the planned relations contain a directed cycle. */
  method CycleFinding(claims: seq<Claim>) returns (finding: bool)
    ensures finding <==> !Acyclic(PlannedRelations(claims))
  {
    var graph := BuildGraph(claims);
    var search := new CycleSearch(graph);
    finding := search.AnyCycle();
  }
}
