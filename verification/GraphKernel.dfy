/**
 The graph kernel: building a graph from domain edges, the transitive reduction
 with its stack-driven reach matrix, and the longest path.
 Weights are exact numbers; rustworkx supplies the topological order.
 */
module GraphKernel {
  import opened Prelude
  import opened GraphPaths

  datatype GraphEdge = GraphEdge(source: string, target: string, kind: string, weight: real)

  /** An edge between node indices. */
  datatype Arc = Arc(source: int, target: int, kind: string, weight: real)

  datatype Graph = Graph(n: nat, arcs: seq<Arc>) {
    predicate Valid() {
      forall k :: 0 <= k < |arcs| ==> 0 <= arcs[k].source < n && 0 <= arcs[k].target < n
    }

    function Pairs(): (p: set<(int, int)>) {
      set k | 0 <= k < |arcs| :: (arcs[k].source, arcs[k].target)
    }
  }

  function Successors(arcs: seq<Arc>, s: int): (r: seq<int>)
    ensures forall t :: t in r <==> exists k :: 0 <= k < |arcs| && arcs[k].source == s && arcs[k].target == t
  {
    if arcs == [] then []
    else
      assert forall k :: 1 <= k < |arcs| ==> arcs[k] == arcs[1..][k - 1];
      assert forall k :: 0 <= k < |arcs| - 1 ==> arcs[1..][k] == arcs[k + 1];
      (if arcs[0].source == s then [arcs[0].target] else []) + Successors(arcs[1..], s)
  }

  function Predecessors(arcs: seq<Arc>, t: int): (r: seq<int>)
    ensures forall s :: s in r <==> exists k :: 0 <= k < |arcs| && arcs[k].source == s && arcs[k].target == t
  {
    if arcs == [] then []
    else
      assert forall k :: 1 <= k < |arcs| ==> arcs[k] == arcs[1..][k - 1];
      assert forall k :: 0 <= k < |arcs| - 1 ==> arcs[1..][k] == arcs[k + 1];
      (if arcs[0].target == t then [arcs[0].source] else []) + Predecessors(arcs[1..], t)
  }

  lemma {:induction false} SuccessorsAreEdges(g: Graph, s: int, t: int)
    ensures t in Successors(g.arcs, s) <==> (s, t) in g.Pairs()
    ensures s in Predecessors(g.arcs, t) <==> (s, t) in g.Pairs()
    ensures g.Valid() && (s, t) in g.Pairs() ==> 0 <= s < g.n && 0 <= t < g.n
  {
  }

  // ---------- transitive reduction: what it keeps ----------

  /** Another edge out of s leads to t. */
  ghost predicate Redundant(edges: set<(int, int)>, s: int, t: int) {
    exists m :: (s, m) in edges && m != t && Reaches(edges, m, t)
  }

  ghost function Kept(edges: set<(int, int)>): set<(int, int)> {
    set e | e in edges && !Redundant(edges, e.0, e.1)
  }

  ghost predicate Bounded(n: nat, edges: set<(int, int)>) {
    forall a, b :: (a, b) in edges ==> 0 <= a < n && 0 <= b < n
  }

  lemma {:induction false} ReachesBounded(n: nat, edges: set<(int, int)>, a: int, b: int)
    requires Bounded(n, edges) && Reaches(edges, a, b)
    ensures 0 <= a < n && 0 <= b < n
  {
    var p: seq<int> :| IsWalk(edges, p, a, b);
    var x, y := p[1], p[|p| - 2];
    assert (a, x) in edges && (y, b) in edges;
  }

  /** A node on a cycle has one way out. */
  ghost predicate OneWayOutOfCycles(edges: set<(int, int)>) {
    forall s, t, m :: Reaches(edges, s, s) && (s, t) in edges && (s, m) in edges ==> t == m
  }

  /** s leads to t through a node that t does not lead back to. */
  ghost predicate HasWayAhead(edges: set<(int, int)>, s: int, t: int) {
    exists k :: (s, k) in edges && k != t && Reaches(edges, k, t) && !Reaches(edges, t, k)
  }

  /** Two successors on one cycle are both entered from a third one outside it. */
  ghost predicate CyclesAreEnteredOnce(edges: set<(int, int)>) {
    forall s, t, m :: (s, t) in edges && (s, m) in edges && t != m && Reaches(edges, t, m) && Reaches(edges, m, t) ==>
      HasWayAhead(edges, s, t)
  }

  /** A node and everything it reaches. */
  ghost function From(n: nat, edges: set<(int, int)>, a: int): set<int> {
    {a} + set v: int | 0 <= v < n && Reaches(edges, a, v)
  }

  /** The successors of a that lead to t and that t does not lead back to. */
  ghost function Ahead(n: nat, edges: set<(int, int)>, a: int, t: int): set<int> {
    set k: int | 0 <= k < n && (a, k) in edges && Reaches(edges, k, t) && !Reaches(edges, t, k)
  }

  lemma {:induction false} FromShrinks(n: nat, edges: set<(int, int)>, a: int, k: int)
    requires Bounded(n, edges) && (a, k) in edges
    ensures From(n, edges, k) <= From(n, edges, a)
    ensures !Reaches(edges, a, a) ==> From(n, edges, k) < From(n, edges, a)
  {
    EdgeReaches(edges, a, k);
    forall v | v in From(n, edges, k) ensures v in From(n, edges, a) && (v == a ==> Reaches(edges, a, a)) {
      if v != k {
        ReachesTransitive(edges, a, k, v);
      }
    }
    assert a in From(n, edges, a);
  }

  lemma {:induction false} AheadShrinks(n: nat, edges: set<(int, int)>, a: int, t: int, k: int)
    requires k in Ahead(n, edges, a, t)
    ensures Ahead(n, edges, a, k) < Ahead(n, edges, a, t)
  {
    forall x | x in Ahead(n, edges, a, k) ensures x in Ahead(n, edges, a, t) {
      ReachesTransitive(edges, x, k, t);
      if Reaches(edges, t, x) {
        ReachesTransitive(edges, k, t, x);
      }
    }
    assert k !in Ahead(n, edges, a, k);
  }

  /** A dropped edge out of a node on no cycle has a successor ahead of its target. */
  lemma {:induction false} DroppedHasWayAhead(edges: set<(int, int)>, a: int, t: int)
    requires CyclesAreEnteredOnce(edges) && (a, t) in edges && Redundant(edges, a, t)
    ensures HasWayAhead(edges, a, t)
  {
    var m :| (a, m) in edges && m != t && Reaches(edges, m, t);
    if !Reaches(edges, t, m) {
      assert HasWayAhead(edges, a, t);
    }
  }

  lemma {:induction false} EdgeIsReplaced(n: nat, edges: set<(int, int)>, a: int, t: int)
    requires Bounded(n, edges) && OneWayOutOfCycles(edges) && CyclesAreEnteredOnce(edges)
    requires (a, t) in edges
    ensures Reaches(Kept(edges), a, t)
    decreases From(n, edges, a), 0, Ahead(n, edges, a, t)
  {
    if Redundant(edges, a, t) {
      DroppedHasWayAhead(edges, a, t);
      var k :| (a, k) in edges && k != t && Reaches(edges, k, t) && !Reaches(edges, t, k);
      AheadShrinks(n, edges, a, t, k);
      EdgeIsReplaced(n, edges, a, k);
      FromShrinks(n, edges, a, k);
      var p: seq<int> :| IsWalk(edges, p, k, t);
      WalkIsReplaced(n, edges, p);
      ReachesTransitive(Kept(edges), a, k, t);
    } else {
      EdgeReaches(Kept(edges), a, t);
    }
  }

  lemma {:induction false} WalkIsReplaced(n: nat, edges: set<(int, int)>, p: seq<int>)
    requires Bounded(n, edges) && OneWayOutOfCycles(edges) && CyclesAreEnteredOnce(edges)
    requires |p| >= 2 && IsPath(edges, p)
    ensures Reaches(Kept(edges), p[0], p[|p| - 1])
    decreases From(n, edges, p[0]), |p|
  {
    assert (p[1 - 1], p[1]) in edges;
    EdgeIsReplaced(n, edges, p[0], p[1]);
    if |p| > 2 {
      FromShrinks(n, edges, p[0], p[1]);
      var rest := p[1..];
      assert rest[0] == p[1] && rest[|rest| - 1] == p[|p| - 1];
      assert IsPath(edges, rest);
      WalkIsReplaced(n, edges, rest);
      ReachesTransitive(Kept(edges), p[0], p[1], p[|p| - 1]);
    }
  }

  lemma {:induction false} KeptReachesNoMore(edges: set<(int, int)>, a: int, b: int)
    requires Reaches(Kept(edges), a, b)
    ensures Reaches(edges, a, b)
  {
    ReachesMonotonic(Kept(edges), edges, a, b);
  }

  /** An edge kept out of a cycle stays on it: any other is dropped for the edge that closes the cycle. */
  lemma {:induction false} KeptEdgeStaysOnCycle(edges: set<(int, int)>, s: int, t: int)
    requires Reaches(edges, s, s) && (s, t) in Kept(edges)
    ensures Reaches(edges, t, s)
  {
    var c := FirstStep(edges, s, s);
    if c != t {
      EdgeReaches(edges, s, t);
      if c != s {
        ReachesTransitive(edges, c, s, t);
      }
      assert false;
    } else if c == s {
      EdgeReaches(edges, s, s);
    }
  }

  lemma {:induction false} KeptStaysOnCycle(n: nat, edges: set<(int, int)>, s: int, t: int)
    requires Bounded(n, edges) && Reaches(edges, s, s) && Reaches(Kept(edges), s, t)
    ensures Reaches(edges, t, s)
  {
    var cycle := set v: int | 0 <= v < n && Reaches(edges, s, v) && Reaches(edges, v, s);
    ReachesBounded(n, edges, s, s);
    forall x, y | x in cycle && (x, y) in Kept(edges) ensures y in cycle {
      ReachesTransitive(edges, x, s, x);
      KeptEdgeStaysOnCycle(edges, x, y);
      ReachesTransitive(edges, y, x, s);
      EdgeReaches(edges, x, y);
      ReachesTransitive(edges, s, x, y);
    }
    ClosedUnderReach(Kept(edges), cycle, s, t);
  }

  lemma {:induction false} SameReachGivesOneWay(n: nat, edges: set<(int, int)>, s: int, t: int, m: int)
    requires Bounded(n, edges) && SameReach(Kept(edges), edges)
    requires Reaches(edges, s, s) && (s, t) in edges && (s, m) in edges
    ensures t == m
  {
    if t != m {
      var x := FirstStep(Kept(edges), s, s);
      var other := if x == t then m else t;
      EdgeReaches(edges, s, other);
      KeptStaysOnCycle(n, edges, s, other);
      EdgeReaches(edges, s, x);
      ReachesTransitive(edges, other, s, x);
      assert false;
    }
  }

  lemma {:induction false} SameReachGivesWayAhead(edges: set<(int, int)>, s: int, t: int, m: int)
    requires SameReach(Kept(edges), edges)
    requires (s, t) in edges && (s, m) in edges && t != m && Reaches(edges, m, t)
    ensures HasWayAhead(edges, s, t)
  {
    EdgeReaches(edges, s, t);
    var k := FirstStep(Kept(edges), s, t);
    assert Redundant(edges, s, t);
    KeptReachesNoMore(edges, k, t);
    if Reaches(edges, t, k) {
      assert false;
    }
  }

  /**
   On any graph, cyclic ones included: the kept edges reach what the graph reaches
   exactly when nodes on cycles have one way out and every two successors on one
   cycle are entered from a third one outside it.
   */
  lemma {:induction false} KeptReachesSameIff(n: nat, edges: set<(int, int)>)
    requires Bounded(n, edges)
    ensures SameReach(Kept(edges), edges) <==> OneWayOutOfCycles(edges) && CyclesAreEnteredOnce(edges)
  {
    if SameReach(Kept(edges), edges) {
      forall s, t, m | Reaches(edges, s, s) && (s, t) in edges && (s, m) in edges ensures t == m {
        SameReachGivesOneWay(n, edges, s, t, m);
      }
      forall s, t, m | (s, t) in edges && (s, m) in edges && t != m && Reaches(edges, t, m) && Reaches(edges, m, t)
        ensures HasWayAhead(edges, s, t)
      {
        SameReachGivesWayAhead(edges, s, t, m);
      }
    }
    if OneWayOutOfCycles(edges) && CyclesAreEnteredOnce(edges) {
      forall a, b ensures Reaches(Kept(edges), a, b) <==> Reaches(edges, a, b) {
        if Reaches(Kept(edges), a, b) {
          KeptReachesNoMore(edges, a, b);
        } else if Reaches(edges, a, b) {
          var p: seq<int> :| IsWalk(edges, p, a, b);
          WalkIsReplaced(n, edges, p);
        }
      }
    }
  }

  lemma {:induction false} KeptIsInEveryEquivalent(edges: set<(int, int)>, other: set<(int, int)>, s: int, t: int)
    requires Acyclic(edges) && SameReach(edges, other) && (s, t) in Kept(edges)
    ensures (s, t) in other
  {
    EdgeReaches(edges, s, t);
    var m := FirstStep(other, s, t);
    if m != t {
      EdgeReaches(other, s, m);
      assert Reaches(edges, s, m) && Reaches(edges, m, t);
      var k := FirstStep(edges, s, m);
      if k != m {
        ReachesTransitive(edges, k, m, t);
      }
    }
  }

  /**
   On an acyclic graph the kept edges reach exactly what the graph reaches, every
   graph with that reachability contains them, and none of them can be dropped.
   */
  lemma {:induction false} KeptIsTheTransitiveReduction(n: nat, edges: set<(int, int)>)
    requires Acyclic(edges) && Bounded(n, edges)
    ensures Kept(edges) <= edges && SameReach(Kept(edges), edges)
    ensures forall other: set<(int, int)> :: SameReach(edges, other) ==> Kept(edges) <= other
    ensures forall e :: e in Kept(edges) ==> !SameReach(Kept(edges) - {e}, edges)
  {
    forall s, t, m | (s, t) in edges && (s, m) in edges && t != m && Reaches(edges, t, m) && Reaches(edges, m, t)
      ensures false
    {
      ReachesTransitive(edges, t, m, t);
    }
    KeptReachesSameIff(n, edges);
    forall other: set<(int, int)> | SameReach(edges, other) ensures Kept(edges) <= other {
      forall e | e in Kept(edges) ensures e in other {
        KeptIsInEveryEquivalent(edges, other, e.0, e.1);
      }
    }
    forall e | e in Kept(edges) ensures !SameReach(Kept(edges) - {e}, edges) {
      if SameReach(Kept(edges) - {e}, edges) {
        KeptIsInEveryEquivalent(edges, Kept(edges) - {e}, e.0, e.1);
      }
    }
  }

  /** Beside a self-loop the only other way out of the node is dropped. */
  lemma {:induction false} SelfLoopLosesReachability(n: nat, edges: set<(int, int)>, s: int, t: int)
    requires Bounded(n, edges) && (s, s) in edges && (s, t) in edges && s != t
    ensures !SameReach(Kept(edges), edges)
  {
    EdgeReaches(edges, s, s);
    KeptReachesSameIff(n, edges);
  }

  /** A cycle without branches is kept whole. */
  lemma {:induction false} TwoCycleIsKept()
    ensures Kept({(0, 1), (1, 0)}) == {(0, 1), (1, 0)}
    ensures SameReach(Kept({(0, 1), (1, 0)}), {(0, 1), (1, 0)})
  {
    var edges: set<(int, int)> := {(0, 1), (1, 0)};
    assert Kept(edges) == edges;
  }

  // ---------- transitive reduction: the loops ----------

  ghost function Indices(n: nat): (all: set<int>)
    ensures forall v :: v in all <==> 0 <= v < n
  {
    if n == 0 then {} else Indices(n - 1) + {n - 1}
  }

  /** Row i of the reach matrix, filled with a work stack. */
  method FillRow(g: Graph, reach: array2<bool>, i: int)
    requires g.Valid() && 0 <= i < g.n && reach.Length0 == reach.Length1 == g.n
    requires forall j :: 0 <= j < g.n ==> !reach[i, j]
    modifies reach
    ensures forall j :: 0 <= j < g.n ==> (reach[i, j] <==> Reaches(g.Pairs(), i, j))
    ensures forall x, j :: 0 <= x < g.n && x != i && 0 <= j < g.n ==> reach[x, j] == old(reach[x, j])
  {
    ghost var edges := g.Pairs();
    var stack := Successors(g.arcs, i);
    ghost var marked: set<int> := {};
    ghost var all := Indices(g.n);
    forall t | t in stack ensures 0 <= t < g.n && Reaches(edges, i, t) {
      SuccessorsAreEdges(g, i, t);
      EdgeReaches(edges, i, t);
    }
    forall t | (i, t) in edges ensures t in stack {
      SuccessorsAreEdges(g, i, t);
    }
    while stack != []
      invariant marked <= all
      invariant forall j :: 0 <= j < g.n ==> (reach[i, j] <==> j in marked)
      invariant forall x, j :: 0 <= x < g.n && x != i && 0 <= j < g.n ==> reach[x, j] == old(reach[x, j])
      invariant forall t :: t in stack ==> 0 <= t < g.n && Reaches(edges, i, t)
      invariant forall t :: t in marked ==> Reaches(edges, i, t)
      invariant forall t :: (i, t) in edges ==> t in marked || t in stack
      invariant forall x, t :: x in marked && (x, t) in edges ==> t in marked || t in stack
      decreases all - marked, |stack|
    {
      var j := stack[|stack| - 1];
      assert j in stack;
      ghost var before := stack;
      stack := stack[..|stack| - 1];
      assert before == stack + [j];
      assert forall t :: t in stack ==> t in before;
      if !reach[i, j] {
        reach[i, j] := true;
        marked := marked + {j};
        var more := Successors(g.arcs, j);
        forall t | t in more ensures 0 <= t < g.n && Reaches(edges, i, t) {
          SuccessorsAreEdges(g, j, t);
          EdgeReaches(edges, j, t);
          ReachesTransitive(edges, i, j, t);
        }
        forall t | (j, t) in edges ensures t in more {
          SuccessorsAreEdges(g, j, t);
        }
        assert forall t :: t in stack + more ==> t in before || t in more;
        stack := stack + more;
      }
    }
    forall j | 0 <= j < g.n && Reaches(edges, i, j) ensures j in marked {
      var m := FirstStep(edges, i, j);
      if m != j {
        ClosedUnderReach(edges, marked, m, j);
      }
    }
  }

  method ReachMatrix(g: Graph) returns (reach: array2<bool>)
    requires g.Valid()
    ensures fresh(reach) && reach.Length0 == reach.Length1 == g.n
    ensures forall i, j :: 0 <= i < g.n && 0 <= j < g.n ==> (reach[i, j] <==> Reaches(g.Pairs(), i, j))
  {
    reach := new bool[g.n, g.n]((i, j) => false);
    for i := 0 to g.n
      invariant forall x, j :: 0 <= x < i && 0 <= j < g.n ==> (reach[x, j] <==> Reaches(g.Pairs(), x, j))
      invariant forall x, j :: i <= x < g.n && 0 <= j < g.n ==> !reach[x, j]
    {
      FillRow(g, reach, i);
    }
  }

  /** The dict from index pair to edge kind: pairs in first-seen order, the last kind wins. */
  function LastKind(arcs: seq<Arc>, s: int, t: int): Option<string> {
    if arcs == [] then None
    else
      var e := arcs[|arcs| - 1];
      if (e.source, e.target) == (s, t) then Some(e.kind) else LastKind(arcs[..|arcs| - 1], s, t)
  }

  /** The k-th row is the last of its pair. */
  ghost predicate LastArc(arcs: seq<Arc>, s: int, t: int, k: int) {
    && 0 <= k < |arcs| && arcs[k].source == s && arcs[k].target == t
    && forall m :: k < m < |arcs| ==> arcs[m].source != s || arcs[m].target != t
  }

  lemma {:induction false} LastKindIs(arcs: seq<Arc>, s: int, t: int)
    ensures LastKind(arcs, s, t).Some? <==> exists k :: LastArc(arcs, s, t, k)
    ensures forall k :: LastArc(arcs, s, t, k) ==> LastKind(arcs, s, t) == Some(arcs[k].kind)
  {
    if arcs != [] {
      var n := |arcs| - 1;
      LastKindIs(arcs[..n], s, t);
      if arcs[n].source == s && arcs[n].target == t {
        assert LastArc(arcs, s, t, n);
      } else {
        forall k ensures LastArc(arcs, s, t, k) <==> LastArc(arcs[..n], s, t, k) {
          if LastArc(arcs, s, t, k) {
            assert forall m :: k < m < n ==> arcs[..n][m] == arcs[m];
          }
        }
      }
    }
  }

  ghost predicate Distinct<T>(s: seq<T>) {
    forall i, j :: 0 <= i < j < |s| ==> s[i] != s[j]
  }

  method PairKinds(g: Graph) returns (order: seq<(int, int)>, kinds: map<(int, int), string>)
    ensures Distinct(order)
    ensures forall p :: p in order <==> p in g.Pairs()
    ensures forall p :: p in kinds <==> p in g.Pairs()
    ensures forall p :: p in kinds ==> LastKind(g.arcs, p.0, p.1) == Some(kinds[p])
  {
    order, kinds := [], map[];
    var arcs := g.arcs;
    for i := 0 to |arcs|
      invariant Distinct(order)
      invariant forall p :: p in order <==> exists k :: 0 <= k < i && (arcs[k].source, arcs[k].target) == p
      invariant forall p :: p in kinds <==> p in order
      invariant forall p :: p in kinds ==> LastKind(arcs[..i], p.0, p.1) == Some(kinds[p])
    {
      var pair := (arcs[i].source, arcs[i].target);
      assert arcs[..i + 1][..i] == arcs[..i];
      if pair !in kinds {
        order := order + [pair];
      }
      kinds := kinds[pair := arcs[i].kind];
    }
    assert arcs[..|arcs|] == arcs;
  }

  datatype KeptEdge = KeptEdge(source: int, target: int, kind: string)

  function EndsOf(kept: seq<KeptEdge>): seq<(int, int)> {
    seq(|kept|, k requires 0 <= k < |kept| => (kept[k].source, kept[k].target))
  }

  /** Of the first i pairs the non-redundant ones are kept, each once. */
  ghost predicate KeepsOf(edges: set<(int, int)>, order: seq<(int, int)>, i: nat, kept: seq<KeptEdge>)
    requires i <= |order|
  {
    && Distinct(EndsOf(kept))
    && (forall p :: p in EndsOf(kept) <==> p in order[..i] && !Redundant(edges, p.0, p.1))
  }

  lemma {:induction false} KeepsNext(
      edges: set<(int, int)>, order: seq<(int, int)>, i: nat, kept: seq<KeptEdge>, kind: string, redundant: bool)
    requires i < |order| && Distinct(order) && KeepsOf(edges, order, i, kept)
    requires redundant <==> Redundant(edges, order[i].0, order[i].1)
    ensures KeepsOf(edges, order, i + 1, if redundant then kept else kept + [KeptEdge(order[i].0, order[i].1, kind)])
  {
    hide Redundant;
    assert order[..i + 1] == order[..i] + [order[i]];
    assert order[i] !in order[..i];
    if !redundant {
      assert EndsOf(kept + [KeptEdge(order[i].0, order[i].1, kind)]) == EndsOf(kept) + [order[i]];
    }
  }

  lemma {:induction false} KeptEnds(kept: seq<KeptEdge>)
    ensures forall p :: p in EndsOf(kept) <==> p in set e | e in kept :: (e.source, e.target)
    ensures Distinct(EndsOf(kept)) ==>
              forall i, j :: 0 <= i < j < |kept| ==>
                  (kept[i].source, kept[i].target) != (kept[j].source, kept[j].target)
  {
    assert forall k :: 0 <= k < |kept| ==> EndsOf(kept)[k] == (kept[k].source, kept[k].target);
  }

  method TransitiveReduction(g: Graph) returns (kept: seq<KeptEdge>)
    requires g.Valid()
    ensures (set e | e in kept :: (e.source, e.target)) == Kept(g.Pairs())
    ensures forall i, j :: 0 <= i < j < |kept| ==> (kept[i].source, kept[i].target) != (kept[j].source, kept[j].target)
    ensures forall e :: e in kept ==> LastKind(g.arcs, e.source, e.target) == Some(e.kind)
  {
    hide Redundant, Reaches, LastKind, Successors, Predecessors, KeepsOf;
    var order, kinds := PairKinds(g);
    var reach := ReachMatrix(g);
    kept := [];
    assert KeepsOf(g.Pairs(), order, 0, []) by {
      NothingKept(g.Pairs(), order);
    }
    for i := 0 to |order|
      invariant forall x, y :: 0 <= x < g.n && 0 <= y < g.n ==> (reach[x, y] <==> Reaches(g.Pairs(), x, y))
      invariant KeepsOf(g.Pairs(), order, i, kept)
      invariant forall e :: e in kept ==> LastKind(g.arcs, e.source, e.target) == Some(e.kind)
    {
      var s, t := order[i].0, order[i].1;
      assert order[i] in order;
      SuccessorsAreEdges(g, s, t);
      var redundant := IsRedundant(g, reach, s, t);
      KeepsNext(g.Pairs(), order, i, kept, kinds[order[i]], redundant);
      if !redundant {
        kept := kept + [KeptEdge(s, t, kinds[order[i]])];
      }
    }
    KeptEnds(kept);
    AllKept(g.Pairs(), order, kept);
  }

  lemma {:induction false} NothingKept(edges: set<(int, int)>, order: seq<(int, int)>)
    ensures KeepsOf(edges, order, 0, [])
  {
  }

  lemma {:induction false} AllKept(edges: set<(int, int)>, order: seq<(int, int)>, kept: seq<KeptEdge>)
    requires KeepsOf(edges, order, |order|, kept) && forall p :: p in order <==> p in edges
    ensures Distinct(EndsOf(kept)) && forall p :: p in EndsOf(kept) <==> p in Kept(edges)
  {
    hide Redundant;
    assert order[..|order|] == order;
  }

  method IsRedundant(g: Graph, reach: array2<bool>, s: int, t: int) returns (redundant: bool)
    requires g.Valid() && 0 <= s < g.n && 0 <= t < g.n && reach.Length0 == reach.Length1 == g.n
    requires forall i, j :: 0 <= i < g.n && 0 <= j < g.n ==> (reach[i, j] <==> Reaches(g.Pairs(), i, j))
    ensures redundant <==> Redundant(g.Pairs(), s, t)
  {
    var succ := Successors(g.arcs, s);
    for k := 0 to |succ|
      invariant forall x :: 0 <= x < k ==> succ[x] == t || !Reaches(g.Pairs(), succ[x], t)
    {
      var m := succ[k];
      assert m in succ;
      SuccessorsAreEdges(g, s, m);
      assert (s, m) in g.Pairs() && 0 <= m < g.n;
      assert reach[m, t] <==> Reaches(g.Pairs(), m, t);
      if m != t && reach[m, t] {
        return true;
      }
    }
    redundant := false;
    if Redundant(g.Pairs(), s, t) {
      var m :| (s, m) in g.Pairs() && m != t && Reaches(g.Pairs(), m, t);
      SuccessorsAreEdges(g, s, m);
    }
  }

  // ---------- longest path ----------

  /** The weight of a pair is that of its last edge, as in the dict the source fills. */
  function LastWeight(arcs: seq<Arc>, s: int, t: int): Option<real> {
    if arcs == [] then None
    else
      var e := arcs[|arcs| - 1];
      if (e.source, e.target) == (s, t) then Some(e.weight) else LastWeight(arcs[..|arcs| - 1], s, t)
  }

  lemma {:induction false} LastWeightOfEdge(arcs: seq<Arc>, s: int, t: int)
    ensures LastWeight(arcs, s, t).Some? <==> exists k :: 0 <= k < |arcs| && (arcs[k].source, arcs[k].target) == (s, t)
    ensures LastWeight(arcs, s, t).Some? ==>
              exists k :: 0 <= k < |arcs| && (arcs[k].source, arcs[k].target) == (s, t)
                          && arcs[k].weight == LastWeight(arcs, s, t).value
    decreases |arcs|
  {
    if arcs != [] {
      var n := |arcs| - 1;
      LastWeightOfEdge(arcs[..n], s, t);
      assert forall k :: 0 <= k < n ==> arcs[..n][k] == arcs[k];
    }
  }

  /** Sum of the pair weights along a path. */
  function PathWeight(arcs: seq<Arc>, p: seq<int>): real {
    if |p| < 2 then 0.0
    else
      var w := LastWeight(arcs, p[|p| - 2], p[|p| - 1]);
      PathWeight(arcs, p[..|p| - 1]) + (if w.Some? then w.value else 0.0)
  }

  /** What rustworkx guarantees of a topological order. */
  ghost predicate IsTopological(g: Graph, order: seq<int>) {
    && Distinct(order)
    && (forall v :: v in order <==> 0 <= v < g.n)
    && forall i, j :: 0 <= i < |order| && 0 <= j < |order| && (order[i], order[j]) in g.Pairs() ==> i < j
  }

  ghost predicate NodePath(g: Graph, p: seq<int>) {
    IsPath(g.Pairs(), p) && forall k :: 0 <= k < |p| ==> 0 <= p[k] < g.n
  }

  /** `best` is a heaviest path among those that end in v. */
  ghost predicate BestAt(g: Graph, v: int, best: (real, seq<int>)) {
    && NodePath(g, best.1) && best.1[|best.1| - 1] == v && PathWeight(g.arcs, best.1) == best.0
    && forall q :: NodePath(g, q) && q[|q| - 1] == v ==> PathWeight(g.arcs, q) <= best.0
  }

  method PairWeights(g: Graph) returns (weights: map<(int, int), real>)
    ensures WeightsOf(g, weights)
  {
    weights := map[];
    var arcs := g.arcs;
    for i := 0 to |arcs|
      invariant forall p :: p in weights <==> exists k :: 0 <= k < i && (arcs[k].source, arcs[k].target) == p
      invariant forall p :: p in weights ==> LastWeight(arcs[..i], p.0, p.1) == Some(weights[p])
    {
      assert arcs[..i + 1][..i] == arcs[..i];
      weights := weights[(arcs[i].source, arcs[i].target) := arcs[i].weight];
    }
    assert arcs[..|arcs|] == arcs;
  }

  lemma {:induction false} ExtendPath(g: Graph, p: seq<int>, v: int)
    requires NodePath(g, p) && (p[|p| - 1], v) in g.Pairs() && 0 <= v < g.n
    ensures NodePath(g, p + [v])
    ensures PathWeight(g.arcs, p + [v]) ==
            PathWeight(g.arcs, p) + (match LastWeight(g.arcs, p[|p| - 1], v) case Some(w) => w case None => 0.0)
  {
    var q := p + [v];
    assert q[..|q| - 1] == p;
    forall i | 1 <= i < |q| ensures (q[i - 1], q[i]) in g.Pairs() {
      assert i < |p| ==> (p[i - 1], p[i]) in g.Pairs();
    }
  }

  lemma {:induction false} SplitLast(g: Graph, q: seq<int>)
    requires NodePath(g, q) && |q| >= 2
    ensures NodePath(g, q[..|q| - 1]) && (q[|q| - 2], q[|q| - 1]) in g.Pairs()
    ensures q == q[..|q| - 1] + [q[|q| - 1]]
  {
  }

  lemma {:induction false} SingleNode(g: Graph, v: int)
    requires 0 <= v < g.n
    ensures NodePath(g, [v]) && PathWeight(g.arcs, [v]) == 0.0
  {
  }

  ghost predicate WeightsOf(g: Graph, weights: map<(int, int), real>) {
    && (forall p :: p in weights <==> p in g.Pairs())
    && forall p :: p in weights ==> LastWeight(g.arcs, p.0, p.1) == Some(weights[p])
  }

  lemma {:induction false} NoHeavierPathInto(
      g: Graph, weights: map<(int, int), real>, best: map<int, (real, seq<int>)>, v: int, bound: real, q: seq<int>)
    requires WeightsOf(g, weights) && 0 <= v < g.n && bound >= 0.0
    requires forall u :: (u, v) in g.Pairs() ==>
              u in best && BestAt(g, u, best[u]) && best[u].0 + weights[(u, v)] <= bound
    requires NodePath(g, q) && q[|q| - 1] == v
    ensures PathWeight(g.arcs, q) <= bound
  {
    if |q| >= 2 {
      SplitLast(g, q);
      var u, head := q[|q| - 2], q[..|q| - 1];
      assert BestAt(g, u, best[u]) && head[|head| - 1] == u;
      assert PathWeight(g.arcs, head) <= best[u].0;
      assert LastWeight(g.arcs, u, v) == Some(weights[(u, v)]);
    }
  }

  /** The inner loop: the best path into v, given the best paths into its predecessors. */
  method BestInto(g: Graph, weights: map<(int, int), real>, best: map<int, (real, seq<int>)>, v: int)
    returns (r: (real, seq<int>))
    requires g.Valid() && 0 <= v < g.n && WeightsOf(g, weights)
    requires forall u :: (u, v) in g.Pairs() ==> u in best && BestAt(g, u, best[u])
    ensures BestAt(g, v, r)
  {
    hide PathWeight, IsPath, NodePath, BestAt, WeightsOf, LastWeight;
    r := (0.0, [v]);
    SingleNode(g, v);
    var preds := Predecessors(g.arcs, v);
    PredecessorsAreBest(g, weights, best, v);
    for k := 0 to |preds|
      invariant IsCandidate(g, v, r)
      invariant NoneHeavier(weights, best, preds[..k], v, r.0)
    {
      assert preds[..k + 1] == preds[..k] + [preds[k]];
      var u := preds[k];
      assert u in preds;
      var cand := (best[u].0 + weights[(u, v)], best[u].1 + [v]);
      if cand.0 > r.0 {
        CandidateThrough(g, weights, best, v, u, r.0);
        r := cand;
      }
    }
    assert preds[..|preds|] == preds;
    HeaviestCandidate(g, weights, best, v, r);
  }

  /** Going through any of these predecessors gives at most the bound. */
  ghost predicate NoneHeavier(
      weights: map<(int, int), real>, best: map<int, (real, seq<int>)>, preds: seq<int>, v: int, bound: real) {
    forall u :: u in preds ==> u in best && (u, v) in weights && best[u].0 + weights[(u, v)] <= bound
  }

  /** A path into v with its weight, no lighter than v alone. */
  ghost predicate IsCandidate(g: Graph, v: int, r: (real, seq<int>)) {
    r.1 != [] && NodePath(g, r.1) && r.1[|r.1| - 1] == v && PathWeight(g.arcs, r.1) == r.0 && r.0 >= 0.0
  }

  lemma {:induction false} PredecessorsAreBest(
      g: Graph, weights: map<(int, int), real>, best: map<int, (real, seq<int>)>, v: int)
    requires g.Valid() && 0 <= v < g.n && WeightsOf(g, weights)
    requires forall u :: (u, v) in g.Pairs() ==> u in best && BestAt(g, u, best[u])
    ensures IsCandidate(g, v, (0.0, [v]))
    ensures forall u :: u in Predecessors(g.arcs, v) ==> u in best && (u, v) in g.Pairs() && (u, v) in weights
  {
    SingleNode(g, v);
    forall u | u in Predecessors(g.arcs, v) ensures (u, v) in g.Pairs() {
      SuccessorsAreEdges(g, u, v);
    }
  }

  lemma {:induction false} CandidateThrough(
      g: Graph, weights: map<(int, int), real>, best: map<int, (real, seq<int>)>, v: int, u: int, floor: real)
    requires g.Valid() && 0 <= v < g.n && WeightsOf(g, weights) && (u, v) in g.Pairs()
    requires u in best && BestAt(g, u, best[u]) && (u, v) in weights
    requires floor >= 0.0 && best[u].0 + weights[(u, v)] > floor
    ensures IsCandidate(g, v, (best[u].0 + weights[(u, v)], best[u].1 + [v]))
  {
    ExtendPath(g, best[u].1, v);
  }

  lemma {:induction false} HeaviestCandidate(
      g: Graph, weights: map<(int, int), real>, best: map<int, (real, seq<int>)>, v: int, r: (real, seq<int>))
    requires g.Valid() && 0 <= v < g.n && WeightsOf(g, weights) && IsCandidate(g, v, r)
    requires forall u :: (u, v) in g.Pairs() ==> u in best && BestAt(g, u, best[u])
    requires NoneHeavier(weights, best, Predecessors(g.arcs, v), v, r.0)
    ensures BestAt(g, v, r)
  {
    hide PathWeight, LastWeight;
    assert |r.1| > 0 && NodePath(g, r.1) && r.1[|r.1| - 1] == v;
    forall u | (u, v) in g.Pairs() ensures u in best && (u, v) in weights && best[u].0 + weights[(u, v)] <= r.0 {
      SuccessorsAreEdges(g, u, v);
    }
    forall q | NodePath(g, q) && q[|q| - 1] == v ensures PathWeight(g.arcs, q) <= r.0 {
      NoHeavierPathInto(g, weights, best, v, r.0, q);
    }
  }

  datatype Longest = Cyclic | EmptyGraph | Longest(value: real, path: seq<int>)

  /** `order` is what the topological sort returned; None when it raised on a cycle. */
  method LongestPath(g: Graph, order: Option<seq<int>>) returns (r: Longest)
    requires g.Valid()
    requires order.Some? ==> IsTopological(g, order.value)
    ensures order.None? ==> r.Cyclic?
    ensures order.Some? && g.n == 0 ==> r.EmptyGraph?
    ensures order.Some? && g.n > 0 ==>
              && r.Longest? && NodePath(g, r.path) && PathWeight(g.arcs, r.path) == r.value
              && forall q :: NodePath(g, q) ==> PathWeight(g.arcs, q) <= r.value
  {
    if order.None? {
      return Cyclic;
    }
    var nodes := order.value;
    var weights := PairWeights(g);
    var best: map<int, (real, seq<int>)> := map[];
    for i := 0 to |nodes|
      invariant forall j :: 0 <= j < i ==> nodes[j] in best
      invariant forall v :: v in best ==> v in nodes
      invariant forall v :: v in best ==> BestAt(g, v, best[v])
    {
      var v := nodes[i];
      assert v in nodes;
      forall u | (u, v) in g.Pairs() ensures u in best {
        SuccessorsAreEdges(g, u, v);
        assert u in nodes;
        var j :| 0 <= j < |nodes| && nodes[j] == u;
      }
      var b := BestInto(g, weights, best, v);
      best := best[v := b];
    }
    if |nodes| == 0 {
      assert g.n > 0 ==> 0 in nodes;
      return EmptyGraph;
    }
    var top := HeaviestEnd(nodes, best);
    r := Longest(best[top].0, best[top].1);
    forall q | NodePath(g, q) ensures PathWeight(g.arcs, q) <= r.value {
      var v := q[|q| - 1];
      assert v in nodes;
      var j :| 0 <= j < |nodes| && nodes[j] == v;
      assert BestAt(g, v, best[v]);
    }
  }

  /** max(best, key=...): the first node with the heaviest best path. */
  method HeaviestEnd(nodes: seq<int>, best: map<int, (real, seq<int>)>) returns (top: int)
    requires nodes != [] && forall j :: 0 <= j < |nodes| ==> nodes[j] in best
    ensures top in nodes && forall j :: 0 <= j < |nodes| ==> best[nodes[j]].0 <= best[top].0
  {
    top := nodes[0];
    for i := 1 to |nodes|
      invariant top in nodes
      invariant forall j :: 0 <= j < i ==> best[nodes[j]].0 <= best[top].0
    {
      if best[nodes[i]].0 > best[top].0 {
        top := nodes[i];
      }
    }
  }

  // ---------- walks over edges, not pairs ----------

  /** Among parallel edges the last row is a heaviest one; without parallel edges always. */
  ghost predicate LastIsHeaviest(g: Graph) {
    forall e :: e in g.arcs ==>
      var last := LastWeight(g.arcs, e.source, e.target);
      last.Some? && e.weight <= last.value
  }

  /** A chain of edges of the graph, each starting where the previous one ends. */
  ghost predicate IsChain(g: Graph, w: seq<Arc>) {
    && (forall k :: 0 <= k < |w| ==> w[k] in g.arcs)
    && forall k :: 1 <= k < |w| ==> w[k - 1].target == w[k].source
  }

  function ChainWeight(w: seq<Arc>): real {
    if w == [] then 0.0 else ChainWeight(w[..|w| - 1]) + w[|w| - 1].weight
  }

  function ChainNodes(w: seq<Arc>): seq<int>
    requires w != []
  {
    if |w| == 1 then [w[0].source, w[0].target] else ChainNodes(w[..|w| - 1]) + [w[|w| - 1].target]
  }

  lemma {:induction false} EdgeHasLastWeight(g: Graph, e: Arc)
    requires g.Valid() && e in g.arcs
    ensures LastWeight(g.arcs, e.source, e.target).Some?
    ensures (e.source, e.target) in g.Pairs() && 0 <= e.source < g.n && 0 <= e.target < g.n
  {
    var j :| 0 <= j < |g.arcs| && g.arcs[j] == e;
    LastWeightOfEdge(g.arcs, e.source, e.target);
  }

  /** A chain of one edge weighs its edge; its path weighs the last edge of the pair. */
  lemma {:induction false} OneEdgeChain(g: Graph, e: Arc)
    requires g.Valid() && e in g.arcs
    ensures IsChain(g, [e]) && ChainWeight([e]) == e.weight && NodePath(g, ChainNodes([e]))
    ensures var last := LastWeight(g.arcs, e.source, e.target);
            last.Some? && PathWeight(g.arcs, ChainNodes([e])) == last.value
  {
    EdgeHasLastWeight(g, e);
    SingleNode(g, e.source);
    ExtendPath(g, [e.source], e.target);
    assert [e.source] + [e.target] == ChainNodes([e]);
    assert [e][..0] == [];
  }

  lemma {:induction false} ChainIsPath(g: Graph, w: seq<Arc>)
    requires g.Valid() && IsChain(g, w) && w != []
    ensures var p := ChainNodes(w);
            && NodePath(g, p) && p[|p| - 1] == w[|w| - 1].target
            && (LastIsHeaviest(g) ==> ChainWeight(w) <= PathWeight(g.arcs, p))
    decreases |w|
  {
    var e := w[|w| - 1];
    if |w| == 1 {
      OneEdgeChain(g, e);
      assert w == [e];
    } else {
      hide PathWeight, IsPath, LastWeight;
      EdgeHasLastWeight(g, e);
      var head := w[..|w| - 1];
      assert w[|w| - 2] == head[|head| - 1] && w[|w| - 2].target == e.source;
      ChainIsPath(g, head);
      ExtendPath(g, ChainNodes(head), e.target);
    }
  }

  /** No chain weighs more than its path exactly when the last of parallel edges is a heaviest one. */
  lemma {:induction false} PathsCoverChainsIff(g: Graph)
    requires g.Valid()
    ensures (forall w :: IsChain(g, w) && w != [] ==> ChainWeight(w) <= PathWeight(g.arcs, ChainNodes(w)))
            <==> LastIsHeaviest(g)
  {
    if LastIsHeaviest(g) {
      forall w | IsChain(g, w) && w != [] ensures ChainWeight(w) <= PathWeight(g.arcs, ChainNodes(w)) {
        ChainIsPath(g, w);
      }
    } else {
      forall e | e in g.arcs ensures LastWeight(g.arcs, e.source, e.target).Some? {
        EdgeHasLastWeight(g, e);
      }
      var e :| e in g.arcs && e.weight > LastWeight(g.arcs, e.source, e.target).value;
      OneEdgeChain(g, e);
    }
  }

  /** Then the reported value bounds every chain of edges. */
  lemma {:induction false} NoChainIsHeavier(g: Graph, value: real, w: seq<Arc>)
    requires g.Valid() && LastIsHeaviest(g) && IsChain(g, w) && g.n > 0
    requires forall q :: NodePath(g, q) ==> PathWeight(g.arcs, q) <= value
    ensures ChainWeight(w) <= value
  {
    if w == [] {
      assert NodePath(g, [0]) && PathWeight(g.arcs, [0]) == 0.0;
    } else {
      ChainIsPath(g, w);
    }
  }

  lemma {:induction false} NoThreeNodePath(g: Graph, q: seq<int>)
    requires g.Pairs() == {(0, 1)} && |q| > 2
    ensures !NodePath(g, q)
  {
    assert (q[1 - 1], q[1]) !in g.Pairs() || (q[2 - 1], q[2]) !in g.Pairs();
  }

  /** Otherwise a chain may outweigh the reported value: the heavier first edge is forgotten. */
  lemma {:induction false} ParallelEdgeIsForgotten()
    ensures var g := Graph(2, [Arc(0, 1, "", 5.0), Arc(0, 1, "", 1.0)]);
            && IsTopological(g, [0, 1]) && IsChain(g, [g.arcs[0]]) && ChainWeight([g.arcs[0]]) == 5.0
            && forall q :: NodePath(g, q) ==> PathWeight(g.arcs, q) <= 1.0
  {
    var g := Graph(2, [Arc(0, 1, "", 5.0), Arc(0, 1, "", 1.0)]);
    var heavy := [g.arcs[0]];
    assert heavy[..0] == [];
    assert g.Pairs() == {(0, 1)} by {
      assert g.arcs[0] == Arc(0, 1, "", 5.0) && (g.arcs[0].source, g.arcs[0].target) in g.Pairs();
    }
    forall q | NodePath(g, q) ensures PathWeight(g.arcs, q) <= 1.0 {
      if |q| > 2 {
        NoThreeNodePath(g, q);
      } else if |q| == 2 {
        assert (q[0], q[1]) in g.Pairs();
        assert LastWeight(g.arcs, 0, 1) == Some(1.0);
        assert PathWeight(g.arcs, q[..1]) == 0.0;
      }
    }
  }

  // ---------- the kernel object: domain ids in, domain ids out ----------

  datatype KernelError = GraphNotBuilt | EmptySequence

  datatype NamedEdge = NamedEdge(source: string, target: string, kind: string)

  function Endpoints(edges: seq<GraphEdge>): set<string> {
    if edges == [] then {}
    else
      var e := edges[|edges| - 1];
      Endpoints(edges[..|edges| - 1]) + {e.source, e.target}
  }

  /** add_node for an id not seen before. */
  method Intern(index: map<string, int>, names: seq<string>, name: string)
    returns (index': map<string, int>, names': seq<string>)
    requires IndexInverts(index, names)
    ensures IndexInverts(index', names') && |names| <= |names'|
    ensures index'.Keys == index.Keys + {name}
    ensures forall x :: x in index ==> index'[x] == index[x]
  {
    index', names' := index, names;
    if name !in index {
      index' := index[name := |names|];
      names' := names + [name];
    }
  }

  lemma {:induction false} NothingMirrored(edges: seq<GraphEdge>)
    ensures Mirrors(edges[..0], [], map[]) && Endpoints(edges[..0]) == {}
  {
  }

  /** One more edge, after both its ends have got their index. */
  lemma {:induction false} MirrorsNext(
      edges: seq<GraphEdge>, i: nat, arcs: seq<Arc>, index: map<string, int>, index': map<string, int>)
    requires i < |edges| && Mirrors(edges[..i], arcs, index)
    requires forall x :: x in index ==> x in index' && index'[x] == index[x]
    requires edges[i].source in index' && edges[i].target in index'
    ensures var e := edges[i];
            Mirrors(edges[..i + 1], arcs + [Arc(index'[e.source], index'[e.target], e.kind, e.weight)], index')
    ensures Endpoints(edges[..i + 1]) == Endpoints(edges[..i]) + {edges[i].source, edges[i].target}
  {
    assert edges[..i + 1][..i] == edges[..i];
    assert forall k :: 0 <= k < i ==> edges[..i + 1][k] == edges[..i][k];
  }

  lemma {:induction false} MirrorIsValid(
      edges: seq<GraphEdge>, arcs: seq<Arc>, index: map<string, int>, names: seq<string>)
    requires Mirrors(edges, arcs, index) && IndexInverts(index, names)
    ensures Graph(|names|, arcs).Valid()
  {
  }

  ghost predicate NamesPath(index: map<string, int>, named: seq<string>, p: seq<int>) {
    |named| == |p| && forall k :: 0 <= k < |p| ==> named[k] in index && index[named[k]] == p[k]
  }

  class Kernel {
    var graph: Option<Graph>
    var index: map<string, int>
    var names: seq<string>

    ghost predicate Valid()
      reads this
    {
      graph.Some? ==>
        && graph.value.Valid() && graph.value.n == |names| && IndexInverts(index, names)
    }

    constructor ()
      ensures Valid() && graph.None?
    {
      graph, index, names := None, map[], [];
    }

    method Build(edges: seq<GraphEdge>)
      modifies this
      ensures Valid() && graph.Some?
      ensures Mirrors(edges, graph.value.arcs, index)
      ensures index.Keys == Endpoints(edges)
    {
      hide Mirrors, Endpoints;
      var arcs: seq<Arc> := [];
      var ids: map<string, int> := map[];
      var known: seq<string> := [];
      NothingMirrored(edges);
      for i := 0 to |edges|
        invariant IndexInverts(ids, known)
        invariant Mirrors(edges[..i], arcs, ids)
        invariant ids.Keys == Endpoints(edges[..i])
      {
        var e := edges[i];
        ghost var before, was := ids, arcs;
        ids, known := Intern(ids, known, e.source);
        ids, known := Intern(ids, known, e.target);
        arcs := arcs + [Arc(ids[e.source], ids[e.target], e.kind, e.weight)];
        MirrorsNext(edges, i, was, before, ids);
      }
      assert edges[..|edges|] == edges;
      MirrorIsValid(edges, arcs, ids, known);
      graph, index, names := Some(Graph(|known|, arcs)), ids, known;
    }

    method Reduce() returns (r: Result<seq<NamedEdge>, KernelError>)
      requires Valid()
      ensures graph.None? ==> r == Err(GraphNotBuilt)
      ensures graph.Some? ==>
                && r.Ok? && (forall e :: e in r.value ==> e.source in index && e.target in index)
                && (set e | e in r.value :: (index[e.source], index[e.target])) == Kept(graph.value.Pairs())
                && (forall e :: e in r.value ==>
                      LastKind(graph.value.arcs, index[e.source], index[e.target]) == Some(e.kind))
    {
      if graph.None? {
        return Err(GraphNotBuilt);
      }
      var g := graph.value;
      var kept := TransitiveReduction(g);
      var named: seq<NamedEdge> := [];
      forall e | e in kept ensures 0 <= e.source < g.n && 0 <= e.target < g.n {
        assert (e.source, e.target) in Kept(g.Pairs());
        SuccessorsAreEdges(g, e.source, e.target);
      }
      for i := 0 to |kept|
        invariant |named| == i
        invariant forall k :: 0 <= k < i ==>
                  kept[k] in kept && named[k] == NamedEdge(names[kept[k].source], names[kept[k].target], kept[k].kind)
      {
        assert kept[i] in kept;
        named := named + [NamedEdge(names[kept[i].source], names[kept[i].target], kept[i].kind)];
      }
      r := Ok(named);
      forall p | p in Kept(g.Pairs())
        ensures exists e ::
                  e in named && e.source in index && e.target in index && (index[e.source], index[e.target]) == p
      {
        var e :| e in kept && (e.source, e.target) == p;
        var k :| 0 <= k < |kept| && kept[k] == e;
        assert named[k] in named;
      }
    }

    method Longest(order: Option<seq<int>>) returns (r: Result<(real, seq<string>), KernelError>)
      requires Valid()
      requires graph.Some? && order.Some? ==> IsTopological(graph.value, order.value)
      ensures graph.None? ==> r == Err(GraphNotBuilt)
      ensures graph.Some? && order.None? ==> r == Ok((0.0, []))
      ensures graph.Some? && order.Some? && |names| == 0 ==> r == Err(EmptySequence)
      ensures graph.Some? && order.Some? && |names| > 0 ==>
                && r.Ok?
                && (exists p :: NamesPath(index, r.value.1, p) && NodePath(graph.value, p)
                                && PathWeight(graph.value.arcs, p) == r.value.0)
                && forall q :: NodePath(graph.value, q) ==> PathWeight(graph.value.arcs, q) <= r.value.0
    {
      if graph.None? {
        return Err(GraphNotBuilt);
      }
      var found := LongestPath(graph.value, order);
      match found {
        case Cyclic => r := Ok((0.0, []));
        case EmptyGraph => r := Err(EmptySequence);
        case Longest(value, path) =>
          hide PathWeight, IsPath;
          var labels := names;
          var named := seq(|path|, k requires 0 <= k < |path| && 0 <= path[k] < |labels| => labels[path[k]]);
          r := Ok((value, named));
          assert NamesPath(index, named, path);
      }
    }
  }

  ghost predicate IndexInverts(index: map<string, int>, names: seq<string>) {
    && (forall i :: 0 <= i < |names| ==> names[i] in index && index[names[i]] == i)
    && forall name :: name in index ==> 0 <= index[name] < |names| && names[index[name]] == name
  }

  ghost predicate Mirrors(edges: seq<GraphEdge>, arcs: seq<Arc>, index: map<string, int>) {
    && |arcs| == |edges|
    && forall k :: 0 <= k < |edges| ==>
         && edges[k].source in index && edges[k].target in index
         && arcs[k] == Arc(index[edges[k].source], index[edges[k].target], edges[k].kind, edges[k].weight)
  }
}
