/** Directed graphs as sets of pairs: paths, reachability, cycles. */
module GraphPaths {
  ghost predicate IsPath<T>(edges: set<(T, T)>, p: seq<T>) {
    p != [] && forall i :: 1 <= i < |p| ==> (p[i - 1], p[i]) in edges
  }

  /** A path of at least one edge from a to b. */
  ghost predicate IsWalk<T>(edges: set<(T, T)>, p: seq<T>, a: T, b: T) {
    |p| >= 2 && p[0] == a && p[|p| - 1] == b && IsPath(edges, p)
  }

  ghost predicate Reaches<T(!new)>(edges: set<(T, T)>, a: T, b: T) {
    exists p :: IsWalk(edges, p, a, b)
  }

  ghost predicate Acyclic<T(!new)>(edges: set<(T, T)>) {
    forall v :: !Reaches(edges, v, v)
  }

  ghost predicate SameReach<T(!new)>(e: set<(T, T)>, f: set<(T, T)>) {
    forall a, b :: Reaches(e, a, b) <==> Reaches(f, a, b)
  }

  lemma {:induction false} EdgeReaches<T(!new)>(edges: set<(T, T)>, a: T, b: T)
    requires (a, b) in edges
    ensures Reaches(edges, a, b)
  {
    assert IsWalk(edges, [a, b], a, b);
  }

  lemma {:induction false} ReachesTransitive<T(!new)>(edges: set<(T, T)>, a: T, b: T, c: T)
    requires Reaches(edges, a, b) && Reaches(edges, b, c)
    ensures Reaches(edges, a, c)
  {
    var p :| IsWalk(edges, p, a, b);
    var q :| IsWalk(edges, q, b, c);
    var r := p + q[1..];
    forall i | 1 <= i < |r| ensures (r[i - 1], r[i]) in edges {
      if i < |p| {
        assert r[i] == p[i];
      } else {
        assert r[i - 1] == q[i - |p|] && r[i] == q[i - |p| + 1];
      }
    }
    assert IsWalk(edges, r, a, c);
  }

  lemma {:induction false} SubWalk<T(!new)>(edges: set<(T, T)>, p: seq<T>, i: nat, j: nat)
    requires IsPath(edges, p) && i < j < |p|
    ensures Reaches(edges, p[i], p[j])
  {
    assert IsWalk(edges, p[i..j + 1], p[i], p[j]);
  }

  /** A walk is its first edge, alone or followed by another walk. */
  lemma {:induction false} FirstStep<T(!new)>(edges: set<(T, T)>, a: T, b: T) returns (m: T)
    requires Reaches(edges, a, b)
    ensures (a, m) in edges && (m == b || Reaches(edges, m, b))
  {
    var p :| IsWalk(edges, p, a, b);
    m := p[1];
    if |p| > 2 {
      SubWalk(edges, p, 1, |p| - 1);
    }
  }

  lemma {:induction false} ReachesMonotonic<T(!new)>(e: set<(T, T)>, f: set<(T, T)>, a: T, b: T)
    requires e <= f && Reaches(e, a, b)
    ensures Reaches(f, a, b)
  {
    var p :| IsWalk(e, p, a, b);
    assert IsWalk(f, p, a, b);
  }

  /** A set that is closed under the edges contains everything its members reach. */
  lemma {:induction false} ClosedUnderReach<T(!new)>(edges: set<(T, T)>, closed: set<T>, a: T, b: T)
    requires forall x, y :: x in closed && (x, y) in edges ==> y in closed
    requires a in closed && Reaches(edges, a, b)
    ensures b in closed
  {
    var p :| IsWalk(edges, p, a, b);
    for i := 0 to |p| - 1
      invariant p[i] in closed
    {
      assert (p[i + 1 - 1], p[i + 1]) in edges;
    }
  }
}
