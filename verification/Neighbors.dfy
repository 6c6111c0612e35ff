/** The budgeted breadth-first neighbourhood of a node in one snapshot. */
module Neighbors {
  import opened Prelude
  import opened GraphPaths

  datatype EdgeRow = EdgeRow(id: string, kind: string, src: string, dst: string)
  datatype Direction = Outgoing | Incoming | Both

  /** One snapshot's tables and the arguments that select the edges to follow. */
  datatype Query = Query(nodes: set<string>, edges: seq<EdgeRow>, relation: string, direction: Direction)

  /** The row is returned for `cur`: directed queries join the node at the far end. */
  predicate Incident(q: Query, e: EdgeRow, cur: string) {
    && (q.relation == "" || e.kind == q.relation)
    && match q.direction
       case Outgoing => e.src == cur && e.dst in q.nodes
       case Incoming => e.dst == cur && e.src in q.nodes
       case Both => e.src == cur || e.dst == cur
  }

  function Other(e: EdgeRow, cur: string): string {
    if e.src == cur then e.dst else e.src
  }

  function EdgesForNode(edges: seq<EdgeRow>, q: Query, cur: string): (r: seq<EdgeRow>)
    ensures forall e :: e in r <==> e in edges && Incident(q, e, cur)
  {
    if edges == [] then []
    else
      assert edges == [edges[0]] + edges[1..];
      (if Incident(q, edges[0], cur) then [edges[0]] else []) + EdgesForNode(edges[1..], q, cur)
  }

  /** The row leads from x to y: along its direction unless only incoming rows are asked for, or against it. */
  ghost predicate Joins(q: Query, e: EdgeRow, x: string, y: string) {
    && e in q.edges && (q.relation != "" ==> e.kind == q.relation)
    && ((x == e.src && y == e.dst && q.direction != Incoming) || (x == e.dst && y == e.src && q.direction != Outgoing))
    && (q.direction != Both ==> y in q.nodes)
  }

  /** The steps a traversal may take. */
  ghost function Steps(q: Query): set<(string, string)> {
    (set e | e in q.edges && Joins(q, e, e.src, e.dst) :: (e.src, e.dst)) +
    (set e | e in q.edges && Joins(q, e, e.dst, e.src) :: (e.dst, e.src))
  }

  lemma {:induction false} JoinsIff(q: Query, e: EdgeRow, x: string, y: string)
    requires e in q.edges
    ensures Joins(q, e, x, y) <==> Incident(q, e, x) && Other(e, x) == y
  {
  }

  lemma {:induction false} StepsMeaning(q: Query, x: string, y: string)
    ensures (x, y) in Steps(q) <==> exists e :: e in q.edges && Incident(q, e, x) && Other(e, x) == y
  {
    forall e | e in q.edges ensures Joins(q, e, x, y) <==> Incident(q, e, x) && Other(e, x) == y {
      JoinsIff(q, e, x, y);
    }
    if e :| e in q.edges && Incident(q, e, x) && Other(e, x) == y {
      assert Joins(q, e, x, y);
    }
  }

  /** A path of exactly d steps. */
  ghost predicate PathOf(steps: set<(string, string)>, a: string, b: string, d: nat) {
    exists p :: |p| == d + 1 && p[0] == a && p[d] == b && IsPath(steps, p)
  }

  ghost predicate Distance(steps: set<(string, string)>, a: string, b: string, d: nat) {
    PathOf(steps, a, b, d) && forall k: nat :: k < d ==> !PathOf(steps, a, b, k)
  }

  lemma {:induction false} PathExtends(steps: set<(string, string)>, a: string, b: string, c: string, d: nat)
    requires PathOf(steps, a, b, d) && (b, c) in steps
    ensures PathOf(steps, a, c, d + 1)
  {
    var p :| |p| == d + 1 && p[0] == a && p[d] == b && IsPath(steps, p);
    var r := p + [c];
    forall i | 1 <= i < |r| ensures (r[i - 1], r[i]) in steps {
      if i < |p| { assert (p[i - 1], p[i]) in steps; }
    }
    assert IsPath(steps, r);
  }

  lemma {:induction false} PathShortens(steps: set<(string, string)>, a: string, c: string, d: nat) returns (b: string)
    requires PathOf(steps, a, c, d + 1)
    ensures PathOf(steps, a, b, d) && (b, c) in steps
  {
    var p :| |p| == d + 2 && p[0] == a && p[d + 1] == c && IsPath(steps, p);
    b := p[d];
    var r := p[..d + 1];
    forall i | 1 <= i < |r| ensures (r[i - 1], r[i]) in steps {
      assert (p[i - 1], p[i]) in steps;
    }
    assert IsPath(steps, r) && (p[d + 1 - 1], p[d + 1]) in steps;
  }

  // ---------- the traversal ----------

  /** What the loops update: distances, discovery order, tree edges and the next frontier. */
  datatype Bfs = Bfs(seen: map<string, nat>, order: seq<string>, edges: seq<EdgeRow>, next: seq<string>)

  /** Edge k was followed from an earlier node to node k + 1, one step further out. */
  ghost predicate TreeEdge(q: Query, seen: map<string, nat>, order: seq<string>, e: EdgeRow, k: nat)
    requires k + 1 < |order|
  {
    exists j :: 0 <= j <= k && order[j] in seen && order[k + 1] in seen
                && Joins(q, e, order[j], order[k + 1])
                && seen[order[k + 1]] == seen[order[j]] + 1
  }

  /** The edges form a tree rooted at nid that spans the seen nodes. */
  ghost predicate SpanningTree(q: Query, nid: string, s: Bfs) {
    && |s.order| == |s.edges| + 1 && s.order[0] == nid
    && (forall x :: x in s.order <==> x in s.seen)
    && (forall i, j :: 0 <= i < j < |s.order| ==> s.order[i] != s.order[j])
    && forall k :: 0 <= k < |s.edges| ==> TreeEdge(q, s.seen, s.order, s.edges[k], k)
  }

  ghost predicate ExactDistances(q: Query, nid: string, s: Bfs) {
    forall x :: x in s.seen ==> Distance(Steps(q), nid, x, s.seen[x])
  }

  ghost predicate CompleteTo(q: Query, nid: string, s: Bfs, d: nat) {
    forall x, k: nat :: k <= d && PathOf(Steps(q), nid, x, k) ==> x in s.seen
  }

  ghost predicate Level(q: Query, nid: string, s: Bfs, d: nat) {
    SpanningTree(q, nid, s) && ExactDistances(q, nid, s) && Frontier(s, d)
  }

  /** Nothing lies beyond distance d, and `next` holds exactly the nodes at d. */
  ghost predicate Frontier(s: Bfs, d: nat) {
    && (forall x :: x in s.seen ==> s.seen[x] <= d)
    && (forall x :: x in s.next <==> x in s.seen && s.seen[x] == d)
  }

  /** Every node one step from x has been seen. */
  ghost predicate Explored(q: Query, x: string, s: Bfs) {
    forall y :: (x, y) in Steps(q) ==> y in s.seen
  }

  lemma {:induction false} ExploredGrows(q: Query, x: string, s: Bfs, t: Bfs)
    requires Explored(q, x, s) && Extends(s, t)
    ensures Explored(q, x, t)
  {
  }

  ghost predicate Extends(s: Bfs, t: Bfs) {
    forall x :: x in s.seen ==> x in t.seen && t.seen[x] == s.seen[x]
  }

  lemma {:induction false} OrderCountsSeen(q: Query, nid: string, s: Bfs)
    requires SpanningTree(q, nid, s)
    ensures |s.seen| == |s.order|
  {
    assert Elems(s.order) == s.seen.Keys;
    DistinctCount(s.order);
  }

  lemma {:induction false} Discover(q: Query, nid: string, s: Bfs, cur: string, e: EdgeRow, d: nat)
    requires Level(q, nid, s, d + 1) && CompleteTo(q, nid, s, d)
    requires cur in s.seen && s.seen[cur] == d
    requires e in q.edges && Incident(q, e, cur) && Other(e, cur) !in s.seen
    ensures var y := Other(e, cur);
            var t := Bfs(s.seen[y := d + 1], s.order + [y], s.edges + [e], s.next + [y]);
            Level(q, nid, t, d + 1) && CompleteTo(q, nid, t, d)
  {
    hide Incident, Joins, Other, Steps;
    var y := Other(e, cur);
    var t := Bfs(s.seen[y := d + 1], s.order + [y], s.edges + [e], s.next + [y]);
    NewDistance(q, nid, s, cur, y, d);
    GrowTree(q, nid, s, cur, e, s.next + [y]);
    hide SpanningTree, ExactDistances, Frontier, CompleteTo, Distance;
    ExactGrows(q, nid, s, t, y);
    FrontierGrows(s, t, y, d + 1);
  }

  lemma {:induction false} ExactGrows(q: Query, nid: string, s: Bfs, t: Bfs, y: string)
    requires ExactDistances(q, nid, s) && t.seen.Keys == s.seen.Keys + {y} && y !in s.seen && Extends(s, t)
    requires Distance(Steps(q), nid, y, t.seen[y])
    ensures ExactDistances(q, nid, t)
  {
    hide Distance;
  }

  lemma {:induction false} FrontierGrows(s: Bfs, t: Bfs, y: string, d: nat)
    requires Frontier(s, d) && y !in s.seen && t.seen == s.seen[y := d] && t.next == s.next + [y]
    ensures Frontier(t, d)
  {
  }

  lemma {:induction false} NewDistance(q: Query, nid: string, s: Bfs, cur: string, y: string, d: nat)
    requires ExactDistances(q, nid, s) && CompleteTo(q, nid, s, d)
    requires cur in s.seen && s.seen[cur] == d && y !in s.seen
    requires exists e :: e in q.edges && Incident(q, e, cur) && Other(e, cur) == y
    ensures Distance(Steps(q), nid, y, d + 1)
  {
    StepsMeaning(q, cur, y);
    hide Steps, Incident, Other;
    PathExtends(Steps(q), nid, cur, y, d);
  }

  lemma {:induction false} GrowTree(q: Query, nid: string, s: Bfs, cur: string, e: EdgeRow, next: seq<string>)
    requires SpanningTree(q, nid, s) && cur in s.seen
    requires e in q.edges && Incident(q, e, cur) && Other(e, cur) !in s.seen
    ensures var y := Other(e, cur);
            SpanningTree(q, nid, Bfs(s.seen[y := s.seen[cur] + 1], s.order + [y], s.edges + [e], next))
  {
    var y := Other(e, cur);
    var t := Bfs(s.seen[y := s.seen[cur] + 1], s.order + [y], s.edges + [e], next);
    var j :| 0 <= j < |s.order| && s.order[j] == cur;
    JoinsIff(q, e, cur, y);
    hide Joins, Incident, Other;
    forall k | 0 <= k < |t.edges| ensures TreeEdge(q, t.seen, t.order, t.edges[k], k) {
      if k < |s.edges| {
        assert TreeEdge(q, s.seen, s.order, s.edges[k], k);
        var i :| 0 <= i <= k && s.order[i] in s.seen && s.order[k + 1] in s.seen
                 && Joins(q, s.edges[k], s.order[i], s.order[k + 1])
                 && s.seen[s.order[k + 1]] == s.seen[s.order[i]] + 1;
        assert t.order[i] == s.order[i] && t.order[k + 1] == s.order[k + 1];
      } else {
        assert t.order[j] == cur && t.order[k + 1] == y;
      }
    }
  }

  /** All edges of one frontier node, until the budget is reached. */
  method ScanNode(q: Query, nid: string, s: Bfs, cur: string, d: nat, maxNodes: int) returns (t: Bfs)
    requires Level(q, nid, s, d + 1) && CompleteTo(q, nid, s, d)
    requires cur in s.seen && s.seen[cur] == d && |s.seen| < maxNodes
    ensures Level(q, nid, t, d + 1) && CompleteTo(q, nid, t, d) && Extends(s, t)
    ensures |t.seen| <= maxNodes
    ensures |t.seen| < maxNodes ==> Explored(q, cur, t)
  {
    hide Level, CompleteTo, Steps;
    t := s;
    var rows := EdgesForNode(q.edges, q, cur);
    for i := 0 to |rows|
      invariant Level(q, nid, t, d + 1) && CompleteTo(q, nid, t, d) && Extends(s, t)
      invariant |t.seen| < maxNodes
      invariant forall k :: 0 <= k < i ==> Other(rows[k], cur) in t.seen
    {
      var e := rows[i];
      assert e in rows;
      var other := Other(e, cur);
      if other !in t.seen {
        Discover(q, nid, t, cur, e, d);
        t := Bfs(t.seen[other := d + 1], t.order + [other], t.edges + [e], t.next + [other]);
      }
      if |t.seen| >= maxNodes {
        return;
      }
    }
    forall y | (cur, y) in Steps(q) ensures y in t.seen {
      StepsMeaning(q, cur, y);
      var e :| e in q.edges && Incident(q, e, cur) && Other(e, cur) == y;
      var k :| 0 <= k < |rows| && rows[k] == e;
    }
  }

  lemma {:induction false} LevelDone(q: Query, nid: string, s: Bfs, t: Bfs, d: nat)
    requires Level(q, nid, s, d) && CompleteTo(q, nid, s, d) && Extends(s, t)
    requires forall x :: x in s.next ==> Explored(q, x, t)
    ensures CompleteTo(q, nid, t, d + 1)
  {
    forall x, k: nat | k <= d + 1 && PathOf(Steps(q), nid, x, k) ensures x in t.seen {
      if k == d + 1 {
        var b := PathShortens(Steps(q), nid, x, d);
        assert b in s.seen;
        if s.seen[b] == d {
          assert Explored(q, b, t);
        } else {
          PathExtends(Steps(q), nid, b, x, s.seen[b]);
        }
      }
    }
  }

  lemma {:induction false} StartLevel(q: Query, nid: string, s: Bfs, d: nat)
    requires Level(q, nid, s, d) && CompleteTo(q, nid, s, d)
    ensures Level(q, nid, s.(next := []), d + 1) && CompleteTo(q, nid, s.(next := []), d)
    ensures forall x :: x in s.next ==> x in s.seen && s.seen[x] == d
  {
    hide TreeEdge, Distance, PathOf, Steps;
  }

  /** One level: every node of the frontier, until the budget is reached. */
  method ScanLevel(q: Query, nid: string, s: Bfs, d: nat, maxNodes: int) returns (t: Bfs)
    requires Level(q, nid, s, d) && CompleteTo(q, nid, s, d) && |s.seen| < maxNodes
    ensures Level(q, nid, t, d + 1) && CompleteTo(q, nid, t, d) && |t.seen| <= maxNodes
    ensures |t.seen| < maxNodes ==> CompleteTo(q, nid, t, d + 1)
  {
    var frontier := s.next;
    t := s.(next := []);
    hide Level, CompleteTo, Steps, Explored;
    StartLevel(q, nid, s, d);
    for i := 0 to |frontier|
      invariant Level(q, nid, t, d + 1) && CompleteTo(q, nid, t, d) && Extends(s, t) && |t.seen| < maxNodes
      invariant forall k :: 0 <= k < i ==> Explored(q, frontier[k], t)
    {
      assert frontier[i] in frontier;
      ghost var before := t;
      assert t.seen[frontier[i]] == d;
      t := ScanNode(q, nid, t, frontier[i], d, maxNodes);
      if |t.seen| >= maxNodes {
        return;
      }
      forall k | 0 <= k < i ensures Explored(q, frontier[k], t) {
        ExploredGrows(q, frontier[k], before, t);
      }
    }
    forall x | x in s.next ensures Explored(q, x, t) {
      var k :| 0 <= k < |frontier| && frontier[k] == x;
    }
    LevelDone(q, nid, s, t, d);
  }

  /** The traversal: exact distances, a spanning tree, and completeness unless the budget ran out. */
  method Traverse(q: Query, nid: string, depth: int, maxNodes: int) returns (s: Bfs)
    ensures SpanningTree(q, nid, s) && |s.seen| == |s.edges| + 1
    ensures forall x :: x in s.seen ==> Distance(Steps(q), nid, x, s.seen[x]) && (s.seen[x] == 0 || s.seen[x] <= depth)
    ensures |s.seen| <= if maxNodes > 1 then maxNodes else 1
    ensures |s.seen| < maxNodes ==> forall x, k: nat :: k <= depth && PathOf(Steps(q), nid, x, k) ==> x in s.seen
  {
    s := Bfs(map[nid := 0], [nid], [], [nid]);
    assert PathOf(Steps(q), nid, nid, 0) by { assert IsPath(Steps(q), [nid]); }
    assert Level(q, nid, s, 0) && CompleteTo(q, nid, s, 0);
    var d: nat := 0;
    while d < depth && |s.seen| < maxNodes
      invariant Level(q, nid, s, d)
      invariant d == 0 || d <= depth
      invariant |s.seen| <= if maxNodes > 1 then maxNodes else 1
      invariant |s.seen| < maxNodes ==> CompleteTo(q, nid, s, d)
      decreases depth - d
    {
      s := ScanLevel(q, nid, s, d, maxNodes);
      d := d + 1;
    }
    OrderCountsSeen(q, nid, s);
  }

  datatype Neighborhood = Neighborhood(nodes: map<string, nat>, edges: seq<EdgeRow>)

  method NeighborsOf(q: Query, nid: string, depth: int, maxNodes: int) returns (r: Neighborhood)
    ensures forall x :: x in r.nodes ==> x in q.nodes && Distance(Steps(q), nid, x, r.nodes[x])
    ensures |r.edges| + 1 <= if maxNodes > 1 then maxNodes else 1
    ensures |r.edges| + 1 < maxNodes ==>
              forall x, k: nat :: k <= depth && PathOf(Steps(q), nid, x, k) && x in q.nodes ==> x in r.nodes
    ensures exists s: Bfs :: SpanningTree(q, nid, s) && s.edges == r.edges && r.nodes.Keys == s.seen.Keys * q.nodes
  {
    var s := Traverse(q, nid, depth, maxNodes);
    r := Neighborhood(map x | x in s.seen && x in q.nodes :: s.seen[x], s.edges);
  }
}
