/** The component hierarchy: ancestors, the guard on reparenting, and subtree enumeration. */
module Hierarchy {
  import opened Ordering
  import opened Prelude
  import opened ArchModel

  type Table = map<string, Component>

  function ParentOf(cs: Table, id: string): Option<string> {
    if id in cs then cs[id].parent else None
  }

  /** The k-th ancestor. */
  function Up(cs: Table, id: string, k: nat): Option<string> {
    if k == 0 then Some(id)
    else match Up(cs, id, k - 1)
      case None => None
      case Some(a) => ParentOf(cs, a)
  }

  /** a is d itself or one of its ancestors. */
  ghost predicate IsUnder(cs: Table, d: string, a: string) {
    exists k: nat :: Up(cs, d, k) == Some(a)
  }

  /** No component is its own ancestor. */
  ghost predicate Hierarchical(cs: Table) {
    forall id, k: nat :: k > 0 ==> Up(cs, id, k) != Some(id)
  }

  lemma {:induction false} UpAdd(cs: Table, id: string, j: nat, k: nat)
    requires Up(cs, id, j).Some?
    ensures Up(cs, id, j + k) == Up(cs, Up(cs, id, j).value, k)
  {
    if k > 0 {
      UpAdd(cs, id, j, k - 1);
    }
  }

  lemma {:induction false} UpStops(cs: Table, id: string, j: nat, k: nat)
    requires j <= k && Up(cs, id, j).None?
    ensures Up(cs, id, k).None?
  {
    if j < k {
      UpStops(cs, id, j, k - 1);
    }
  }

  // ---------- the guard ----------

  /** A walk that comes back to where it has been meets nothing new. */
  lemma {:induction false} RepeatingWalk(cs: Table, p: string, c: string, i: nat, n: nat, k: nat)
    requires i < n && Up(cs, p, i).Some? && Up(cs, p, i) == Up(cs, p, n)
    requires forall j :: 0 <= j < n ==> Up(cs, p, j) != Some(c)
    ensures Up(cs, p, k) != Some(c)
    decreases k
  {
    if k >= n {
      RepeatingWalk(cs, p, c, i, n, k - (n - i));
      UpAdd(cs, p, n, k - n);
      UpAdd(cs, p, i, k - n);
    }
  }

  lemma {:induction false} UpStep(cs: Table, p: string, n: nat)
    ensures Up(cs, p, 0) == Some(p)
    ensures Up(cs, p, n).Some? ==> Up(cs, p, n + 1) == ParentOf(cs, Up(cs, p, n).value)
  {
  }

  lemma {:induction false} EndedWalk(cs: Table, p: string, c: string, n: nat)
    requires Up(cs, p, n).None? && forall j :: 0 <= j < n ==> Up(cs, p, j) != Some(c)
    ensures !IsUnder(cs, p, c)
  {
    forall k: nat ensures Up(cs, p, k) != Some(c) {
      if k >= n { UpStops(cs, p, n, k); }
    }
  }

  lemma {:induction false} LoopedWalk(cs: Table, p: string, c: string, n: nat)
    requires forall j :: 0 <= j < n ==> Up(cs, p, j).Some? && Up(cs, p, j) != Some(c)
    requires exists i :: 0 <= i < n && Up(cs, p, i) == Up(cs, p, n)
    ensures !IsUnder(cs, p, c)
  {
    var i :| 0 <= i < n && Up(cs, p, i) == Up(cs, p, n);
    forall k: nat ensures Up(cs, p, k) != Some(c) {
      RepeatingWalk(cs, p, c, i, n, k);
    }
  }

  /** `arch_component`: the row of that id, if there is one. */
  function RowOf(cs: Table, id: Option<string>): (r: Option<string>)
    ensures r.Some? ==> r == id && r.value in cs
  {
    if id.Some? && id.value in cs then id else None
  }

  lemma {:induction false} MissingRowEndsWalk(cs: Table, p: string, c: string, n: nat)
    requires RowOf(cs, Up(cs, p, n)).None? && forall j :: 0 <= j < n ==> Up(cs, p, j) != Some(c)
    ensures !(c in cs && IsUnder(cs, p, c))
  {
    if Up(cs, p, n).None? {
      EndedWalk(cs, p, c, n);
    } else if c in cs {
      UpStep(cs, p, n);
      EndedWalk(cs, p, c, n + 1);
    }
  }

  /** `_would_create_cycle`: true exactly when the new parent is the component or below it, on any table. */
  method WouldCreateCycle(cs: Table, c: string, newParent: string) returns (b: bool)
    ensures b <==> c in cs && IsUnder(cs, newParent, c)
  {
    hide Up;
    var node := RowOf(cs, Some(newParent));
    var seen: set<string> := {};
    ghost var n: nat := 0;
    UpStep(cs, newParent, 0);
    while node.Some?
      invariant node == RowOf(cs, Up(cs, newParent, n))
      invariant forall j :: 0 <= j < n ==> Up(cs, newParent, j).Some? && Up(cs, newParent, j) != Some(c)
      invariant forall x :: x in seen ==> exists j :: 0 <= j < n && Up(cs, newParent, j) == Some(x)
      invariant seen <= cs.Keys
      decreases cs.Keys - seen, node.Some?
    {
      if node.value == c { return true; }
      if node.value in seen {
        LoopedWalk(cs, newParent, c, n);
        return false;
      }
      seen := seen + {node.value};
      UpStep(cs, newParent, n);
      node := RowOf(cs, cs[node.value].parent);
      n := n + 1;
    }
    MissingRowEndsWalk(cs, newParent, c, n);
    b := false;
  }

  // ---------- what keeps the hierarchy acyclic ----------

  /** Away from the changed row, ancestors are as before. */
  lemma {:induction false} UpUnchanged(cs: Table, ds: Table, c: string, id: string, k: nat)
    requires forall x :: x != c ==> ParentOf(ds, x) == ParentOf(cs, x)
    requires forall j :: 0 <= j < k ==> Up(cs, id, j) != Some(c)
    ensures Up(ds, id, k) == Up(cs, id, k)
  {
    if k > 0 {
      UpUnchanged(cs, ds, c, id, k - 1);
    }
  }

  /** The first time a walk meets c. */
  lemma {:induction false} FirstMeeting(cs: Table, id: string, c: string, k: nat) returns (n: nat)
    requires Up(cs, id, k) == Some(c)
    ensures n <= k && Up(cs, id, n) == Some(c) && forall j :: 0 <= j < n ==> Up(cs, id, j) != Some(c)
  {
    n := 0;
    while Up(cs, id, n) != Some(c)
      invariant n <= k && forall j :: 0 <= j < n ==> Up(cs, id, j) != Some(c)
      decreases k - n
    {
      n := n + 1;
    }
  }

  /** A cycle in a changed table passes through the changed row. */
  lemma {:induction false} CycleMeetsChange(cs: Table, ds: Table, c: string, id: string, k: nat)
    requires Hierarchical(cs) && forall x :: x != c ==> ParentOf(ds, x) == ParentOf(cs, x)
    requires k > 0 && Up(ds, id, k) == Some(id)
    ensures exists n: nat :: n > 0 && Up(ds, c, n) == Some(c)
  {
    if j :| 0 <= j < k && Up(ds, id, j) == Some(c) {
      UpAdd(ds, id, j, k - j);
      UpAdd(ds, c, k - j, j);
      assert Up(ds, c, k) == Some(c);
    } else {
      UpUnchanged(ds, cs, c, id, k);
    }
  }

  /** Hanging c under p keeps the hierarchy acyclic exactly when p is not c or below it. */
  lemma {:induction false} ReparentKeepsHierarchyIff(cs: Table, ds: Table, c: string, p: string)
    requires Hierarchical(cs) && ParentOf(ds, c) == Some(p)
    requires forall x :: x != c ==> ParentOf(ds, x) == ParentOf(cs, x)
    ensures Hierarchical(ds) <==> !IsUnder(cs, p, c)
  {
    assert Up(ds, c, 0) == Some(c) && Up(ds, c, 1) == Some(p);
    if k: nat :| Up(cs, p, k) == Some(c) {
      var n := FirstMeeting(cs, p, c, k);
      UpUnchanged(cs, ds, c, p, n);
      UpAdd(ds, c, 1, n);
      assert Up(ds, c, 1 + n) == Some(c);
    } else if id, k: nat :| k > 0 && Up(ds, id, k) == Some(id) {
      CycleMeetsChange(cs, ds, c, id, k);
      var m: nat :| m > 0 && Up(ds, c, m) == Some(c);
      UpAdd(ds, c, 1, m - 1);
      var n := FirstMeeting(ds, p, c, m - 1);
      UpUnchanged(ds, cs, c, p, n);
    }
  }

  /** Making c a root always keeps it acyclic. */
  lemma {:induction false} DetachKeepsHierarchy(cs: Table, ds: Table, c: string)
    requires Hierarchical(cs) && ParentOf(ds, c).None?
    requires forall x :: x != c ==> ParentOf(ds, x) == ParentOf(cs, x)
    ensures Hierarchical(ds)
  {
    forall id, k: nat | k > 0 ensures Up(ds, id, k) != Some(id) {
      if Up(ds, id, k) == Some(id) {
        CycleMeetsChange(cs, ds, c, id, k);
        var m: nat :| m > 0 && Up(ds, c, m) == Some(c);
        assert Up(ds, c, 0) == Some(c) && Up(ds, c, 1).None?;
        UpStops(ds, c, 1, m);
      }
    }
  }

  /** A walk in a part of the table is a walk in the whole. */
  lemma {:induction false} UpInPart(cs: Table, ds: Table, id: string, k: nat)
    requires forall x :: ParentOf(ds, x).Some? ==> ParentOf(ds, x) == ParentOf(cs, x)
    ensures Up(ds, id, k).Some? ==> Up(ds, id, k) == Up(cs, id, k)
  {
    if k > 0 {
      UpInPart(cs, ds, id, k - 1);
    }
  }

  lemma {:induction false} PartIsHierarchical(cs: Table, ds: Table)
    requires Hierarchical(cs) && forall x :: ParentOf(ds, x).Some? ==> ParentOf(ds, x) == ParentOf(cs, x)
    ensures Hierarchical(ds)
  {
    forall id, k: nat | k > 0 ensures Up(ds, id, k) != Some(id) {
      UpInPart(cs, ds, id, k);
    }
  }

  // ---------- the subtree ----------

  type Row = (string, nat)

  /** The listing holds exactly the rows of one model, each once. */
  ghost predicate Lists(listing: seq<Component>, cs: Table, model: string) {
    && DistinctIds(listing)
    && (forall c :: c in listing ==> c.id in cs && cs[c.id] == c && c.model == model)
    && (forall x :: x in cs && cs[x].model == model ==> cs[x] in listing)
  }

  ghost predicate GoodTable(cs: Table) {
    && (forall x :: x in cs ==> cs[x].id == x)
    && (forall x :: x in cs && cs[x].parent.Some? ==>
          cs[x].parent.value in cs && cs[cs[x].parent.value].model == cs[x].model)
    && Hierarchical(cs)
  }

  /** Each row is a component at its depth below the root, and none is listed twice. */
  ghost predicate GoodRows(cs: Table, root: string, rows: seq<Row>) {
    && (forall j :: 0 <= j < |rows| ==> rows[j].0 in cs && Up(cs, rows[j].0, rows[j].1) == Some(root))
    && (forall j, l :: 0 <= j < l < |rows| ==> rows[j].0 != rows[l].0)
  }

  /** The children of everything before row i are listed, and nothing else but the root. */
  ghost predicate Explored(cs: Table, rows: seq<Row>, i: nat) {
    && i <= |rows|
    && (forall j :: 0 < j < |rows| ==> ParentListed(cs, rows, i, rows[j].0))
    && (forall j, x :: 0 <= j < i && x in cs && cs[x].parent == Some(rows[j].0) ==> IsListed(rows, x))
  }

  ghost predicate IsListed(rows: seq<Row>, x: string) {
    exists l :: 0 <= l < |rows| && rows[l].0 == x
  }

  ghost predicate ParentListed(cs: Table, rows: seq<Row>, i: nat, x: string)
    requires i <= |rows|
  {
    x in cs && exists l :: 0 <= l < i && cs[x].parent == Some(rows[l].0)
  }

  lemma {:induction false} DistinctRowsFit(cs: Table, root: string, rows: seq<Row>)
    requires GoodRows(cs, root, rows)
    ensures |rows| <= |cs|
  {
    var ids := seq(|rows|, j requires 0 <= j < |rows| => rows[j].0);
    DistinctFit(ids, cs.Keys);
    assert |cs.Keys| == |cs|;
  }

  lemma {:induction false} DistinctFit(ids: seq<string>, s: set<string>)
    requires forall j :: 0 <= j < |ids| ==> ids[j] in s
    requires forall j, l :: 0 <= j < l < |ids| ==> ids[j] != ids[l]
    ensures |ids| <= |s|
  {
    if ids != [] {
      var n := |ids| - 1;
      DistinctFit(ids[..n], s - {ids[n]});
    }
  }

  /** A child of row i was not listed from any earlier row. */
  lemma {:induction false} ChildIsNew(cs: Table, root: string, rows: seq<Row>, i: nat, x: string)
    requires Hierarchical(cs) && GoodRows(cs, root, rows) && Explored(cs, rows, i) && i < |rows|
    requires rows[0].0 == root && x in cs && cs[x].parent == Some(rows[i].0)
    ensures !IsListed(rows, x)
    ensures Up(cs, x, rows[i].1 + 1) == Some(root)
  {
    assert Up(cs, x, 0) == Some(x) && Up(cs, x, 1) == Some(rows[i].0);
    UpAdd(cs, x, 1, rows[i].1);
    assert x != root;
    forall l | 0 < l < |rows| ensures rows[l].0 != x {
      assert ParentListed(cs, rows, i, rows[l].0);
      var m :| 0 <= m < i && cs[rows[l].0].parent == Some(rows[m].0);
      assert rows[m].0 != rows[i].0;
    }
  }

  /** The recursive query: rows are taken in turn and their children appended. */
  method SubtreeRows(cs: Table, listing: seq<Component>, model: string, root: string) returns (rows: seq<Row>)
    requires GoodTable(cs) && Lists(listing, cs, model) && root in cs && cs[root].model == model
    ensures GoodRows(cs, root, rows)
    ensures forall d :: IsListed(rows, d) <==> d in cs && IsUnder(cs, d, root)
  {
    rows := [(root, 0)];
    var i := 0;
    assert Up(cs, root, 0) == Some(root);
    while i < |rows|
      invariant GoodRows(cs, root, rows) && i <= |rows| && |rows| > 0 && rows[0] == (root, 0)
      invariant forall j :: 0 <= j < |rows| ==> cs[rows[j].0].model == model
      invariant Explored(cs, rows, i)
      decreases |cs| - i
    {
      rows := AppendChildren(cs, listing, model, root, rows, i);
      DistinctRowsFit(cs, root, rows);
      i := i + 1;
    }
    forall d ensures IsListed(rows, d) <==> d in cs && IsUnder(cs, d, root) {
      if d in cs {
        if k: nat :| Up(cs, d, k) == Some(root) {
          DescendantIsListed(cs, root, rows, d, k);
        }
      }
    }
  }

  lemma {:induction false} DescendantIsListed(cs: Table, root: string, rows: seq<Row>, d: string, k: nat)
    requires GoodTable(cs) && rows != [] && rows[0].0 == root && Explored(cs, rows, |rows|)
    requires d in cs && Up(cs, d, k) == Some(root)
    ensures IsListed(rows, d)
    decreases k
  {
    if k > 0 {
      assert Up(cs, d, 0) == Some(d) && Up(cs, d, 1) == ParentOf(cs, d);
      if Up(cs, d, 1).None? {
        UpStops(cs, d, 1, k);
      }
      var p := Up(cs, d, 1).value;
      UpAdd(cs, d, 1, k - 1);
      DescendantIsListed(cs, root, rows, p, k - 1);
    }
  }

  /** Half-way through the children of row i: the first n listed components have been looked at. */
  ghost predicate Appending(
      cs: Table, listing: seq<Component>, model: string, root: string, rows: seq<Row>, out: seq<Row>, i: nat, n: nat)
    requires i < |rows| && n <= |listing|
  {
    && rows <= out && GoodRows(cs, root, out)
    && (forall j :: 0 <= j < |out| ==> out[j].0 in cs && cs[out[j].0].model == model)
    && (forall j :: 0 < j < |out| ==> ParentListed(cs, out, i + 1, out[j].0))
    && (forall j :: |rows| <= j < |out| ==> IsEarlier(listing, n, out[j].0))
    && (forall m :: 0 <= m < n && listing[m].parent == Some(rows[i].0) ==> IsListed(out, listing[m].id))
  }

  ghost predicate IsEarlier(listing: seq<Component>, n: nat, x: string)
    requires n <= |listing|
  {
    exists m :: 0 <= m < n && listing[m].id == x
  }

  lemma {:induction false} StartAppending(
      cs: Table, listing: seq<Component>, model: string, root: string, rows: seq<Row>, i: nat)
    requires GoodRows(cs, root, rows) && i < |rows| && Explored(cs, rows, i)
    requires forall j :: 0 <= j < |rows| ==> rows[j].0 in cs && cs[rows[j].0].model == model
    ensures Appending(cs, listing, model, root, rows, rows, i, 0)
  {
    forall j | 0 < j < |rows| ensures ParentListed(cs, rows, i + 1, rows[j].0) {
      assert ParentListed(cs, rows, i, rows[j].0);
    }
  }

  lemma {:induction false} SkipOther(
      cs: Table, listing: seq<Component>, model: string, root: string, rows: seq<Row>, out: seq<Row>, i: nat, n: nat)
    requires i < |rows| && n < |listing| && Appending(cs, listing, model, root, rows, out, i, n)
    requires listing[n].parent != Some(rows[i].0)
    ensures Appending(cs, listing, model, root, rows, out, i, n + 1)
  {
    hide GoodRows, ParentListed;
    forall j | |rows| <= j < |out| ensures IsEarlier(listing, n + 1, out[j].0) {
      assert IsEarlier(listing, n, out[j].0);
    }
  }

  lemma {:induction false} AppendedRowsAreGood(cs: Table, root: string, out: seq<Row>, x: string, k: nat)
    requires GoodRows(cs, root, out) && x in cs && Up(cs, x, k) == Some(root) && !IsListed(out, x)
    ensures GoodRows(cs, root, out + [(x, k)])
  {
    forall j | 0 <= j < |out| ensures out[j].0 != x {
    }
  }

  lemma {:induction false} AppendedParents(cs: Table, out: seq<Row>, i: nat, r: Row)
    requires i < |out| && r.0 in cs && cs[r.0].parent == Some(out[i].0)
    requires forall j :: 0 < j < |out| ==> ParentListed(cs, out, i + 1, out[j].0)
    ensures var more := out + [r]; forall j :: 0 < j < |more| ==> ParentListed(cs, more, i + 1, more[j].0)
  {
    var more := out + [r];
    ListedStays(cs, out, more, i + 1);
    assert more[i] == out[i];
  }

  lemma {:induction false} AppendChild(
      cs: Table, listing: seq<Component>, model: string, root: string, rows: seq<Row>, out: seq<Row>, i: nat, n: nat)
    requires GoodTable(cs) && Lists(listing, cs, model) && GoodRows(cs, root, rows) && Explored(cs, rows, i)
    requires i < |rows| && rows[0].0 == root && n < |listing|
    requires Appending(cs, listing, model, root, rows, out, i, n) && listing[n].parent == Some(rows[i].0)
    ensures Appending(cs, listing, model, root, rows, out + [(listing[n].id, rows[i].1 + 1)], i, n + 1)
  {
    hide Explored, Lists, GoodTable, GoodRows, Hierarchical, DistinctIds, ParentListed, IsEarlier, IsListed, Up;
    var c := listing[n];
    ListedRow(cs, listing, model, n);
    var r := (c.id, rows[i].1 + 1);
    AppendedIsNew(cs, listing, root, rows, out, i, n);
    AppendedRowsAreGood(cs, root, out, c.id, r.1);
    AppendedParents(cs, out, i, r);
    AppendedListing(listing, rows, out, r, rows[i].0, n);
  }

  lemma {:induction false} ListedRow(cs: Table, listing: seq<Component>, model: string, n: nat)
    requires GoodTable(cs) && Lists(listing, cs, model) && n < |listing|
    ensures listing[n].id in cs && cs[listing[n].id] == listing[n] && listing[n].model == model
    ensures DistinctIds(listing) && Hierarchical(cs)
  {
    hide Hierarchical, DistinctIds;
    assert listing[n] in listing;
  }

  lemma {:induction false} AppendedListing(
      listing: seq<Component>, rows: seq<Row>, out: seq<Row>, r: Row, parent: string, n: nat)
    requires n < |listing| && rows <= out && r.0 == listing[n].id
    requires forall j :: |rows| <= j < |out| ==> IsEarlier(listing, n, out[j].0)
    requires forall m :: 0 <= m < n && listing[m].parent == Some(parent) ==> IsListed(out, listing[m].id)
    ensures forall j :: |rows| <= j < |out + [r]| ==> IsEarlier(listing, n + 1, (out + [r])[j].0)
    ensures forall m :: 0 <= m < n + 1 && listing[m].parent == Some(parent) ==> IsListed(out + [r], listing[m].id)
  {
    var more := out + [r];
    ListedStays(map[], out, more, 0);
    assert more[|out|].0 == listing[n].id;
    assert IsListed(more, listing[n].id) && IsEarlier(listing, n + 1, listing[n].id);
    forall j | |rows| <= j < |more| ensures IsEarlier(listing, n + 1, more[j].0) {
      assert j < |out| ==> IsEarlier(listing, n, out[j].0);
    }
  }

  method AppendChildren(cs: Table, listing: seq<Component>, model: string, root: string, rows: seq<Row>, i: nat)
    returns (out: seq<Row>)
    requires GoodTable(cs) && Lists(listing, cs, model)
    requires GoodRows(cs, root, rows) && i < |rows| && rows[0] == (root, 0)
    requires forall j :: 0 <= j < |rows| ==> rows[j].0 in cs && cs[rows[j].0].model == model
    requires Explored(cs, rows, i)
    ensures rows <= out && GoodRows(cs, root, out) && Explored(cs, out, i + 1)
    ensures forall j :: 0 <= j < |out| ==> out[j].0 in cs && cs[out[j].0].model == model
  {
    hide GoodTable, Lists, GoodRows, Explored, Appending;
    StartAppending(cs, listing, model, root, rows, i);
    out := rows;
    for n := 0 to |listing|
      invariant Appending(cs, listing, model, root, rows, out, i, n)
    {
      if listing[n].parent == Some(rows[i].0) {
        AppendChild(cs, listing, model, root, rows, out, i, n);
        out := out + [(listing[n].id, rows[i].1 + 1)];
      } else {
        SkipOther(cs, listing, model, root, rows, out, i, n);
      }
    }
    assert rows[i].0 in cs && cs[rows[i].0].model == model;
    ChildrenAreListed(cs, listing, model, root, rows, out, i);
  }

  lemma {:induction false} ListedStays(cs: Table, rows: seq<Row>, out: seq<Row>, i: nat)
    requires rows <= out && i <= |rows|
    ensures forall x :: IsListed(rows, x) ==> IsListed(out, x)
    ensures forall x :: ParentListed(cs, rows, i, x) ==> ParentListed(cs, out, i, x)
  {
    forall x | IsListed(rows, x) ensures IsListed(out, x) {
      var l :| 0 <= l < |rows| && rows[l].0 == x;
      assert out[l].0 == x;
    }
    forall x | ParentListed(cs, rows, i, x) ensures ParentListed(cs, out, i, x) {
      var l :| 0 <= l < i && cs[x].parent == Some(rows[l].0);
      assert out[l] == rows[l];
    }
  }

  lemma {:induction false} AppendedIsNew(
      cs: Table, listing: seq<Component>, root: string, rows: seq<Row>, out: seq<Row>, i: nat, n: nat)
    requires Hierarchical(cs) && GoodRows(cs, root, rows) && i < |rows| && rows[0].0 == root
    requires rows <= out && DistinctIds(listing) && n < |listing|
    requires Explored(cs, rows, i)
    requires listing[n].id in cs && cs[listing[n].id].parent == Some(rows[i].0)
    requires forall j :: |rows| <= j < |out| ==> IsEarlier(listing, n, out[j].0)
    ensures !IsListed(out, listing[n].id)
    ensures Up(cs, listing[n].id, rows[i].1 + 1) == Some(root)
  {
    var x := listing[n].id;
    ChildIsNew(cs, root, rows, i, x);
    hide Hierarchical, GoodRows, Explored;
    forall l | 0 <= l < |out| ensures out[l].0 != x {
      if l < |rows| {
        assert out[l] == rows[l];
        assert !IsListed(rows, x);
      } else {
        assert IsEarlier(listing, n, out[l].0);
      }
    }
  }

  lemma {:induction false} ChildrenAreListed(
      cs: Table, listing: seq<Component>, model: string, root: string, rows: seq<Row>, out: seq<Row>, i: nat)
    requires GoodTable(cs) && Lists(listing, cs, model) && i < |rows| && Explored(cs, rows, i)
    requires rows[i].0 in cs && cs[rows[i].0].model == model
    requires Appending(cs, listing, model, root, rows, out, i, |listing|)
    ensures rows <= out && GoodRows(cs, root, out) && Explored(cs, out, i + 1)
    ensures forall j :: 0 <= j < |out| ==> out[j].0 in cs && cs[out[j].0].model == model
  {
    ListedStays(cs, rows, out, i);
    hide GoodRows, ParentListed;
    forall j, x | 0 <= j < i + 1 && x in cs && cs[x].parent == Some(out[j].0) ensures IsListed(out, x) {
      assert out[j] == rows[j];
      if j < i {
        assert IsListed(rows, x);
      } else {
        assert cs[x] in listing;
        var m :| 0 <= m < |listing| && listing[m] == cs[x];
        assert IsListed(out, listing[m].id);
      }
    }
  }

  // ---------- deepest first ----------

  const DEEPER_FIRST: (Row, Row) -> bool := (r: Row, q: Row) => r.1 >= q.1

  function DeepestFirst(rows: seq<Row>): (out: seq<Row>)
    ensures multiset(out) == multiset(rows)
  {
    SortBy(DEEPER_FIRST, rows)
  }

  ghost predicate Descending(rows: seq<Row>) {
    forall i, j :: 0 <= i < j < |rows| ==> rows[i].1 >= rows[j].1
  }

  lemma {:induction false} DeepestFirstDescends(rows: seq<Row>)
    ensures Descending(DeepestFirst(rows))
  {
    SortBySorts(DEEPER_FIRST, rows);
    var out := DeepestFirst(rows);
    assert forall i, j :: 0 <= i < j < |out| ==> DEEPER_FIRST(out[i], out[j]);
  }

  /** Rearranging rows keeps them distinct and at their depths. */
  lemma {:induction false} RearrangedRows(cs: Table, root: string, rows: seq<Row>, out: seq<Row>)
    requires GoodRows(cs, root, rows) && multiset(out) == multiset(rows)
    ensures GoodRows(cs, root, out) && |out| == |rows|
    ensures forall x :: IsListed(out, x) <==> IsListed(rows, x)
  {
    assert |out| == |multiset(out)| == |multiset(rows)| == |rows|;
    forall j | 0 <= j < |out| ensures out[j] in rows { assert out[j] in multiset(out); }
    forall j | 0 <= j < |rows| ensures rows[j] in out { assert rows[j] in multiset(rows); }
    forall j, l | 0 <= j < l < |out| ensures out[j].0 != out[l].0 {
      if out[j].0 == out[l].0 {
        RowsCountOnce(cs, root, rows, out[j]);
        assert out[j] == out[l] by { }
        TwiceCounts(out, j, l);
      }
    }
    forall x ensures IsListed(out, x) <==> IsListed(rows, x) {
      if l :| 0 <= l < |out| && out[l].0 == x { var m :| 0 <= m < |rows| && rows[m] == out[l]; }
      if l :| 0 <= l < |rows| && rows[l].0 == x { var m :| 0 <= m < |out| && out[m] == rows[l]; }
    }
  }

  lemma {:induction false} RowsCountOnce(cs: Table, root: string, rows: seq<Row>, r: Row)
    requires GoodRows(cs, root, rows) && r in rows
    ensures multiset(rows)[r] == 1
  {
    var i :| 0 <= i < |rows| && rows[i] == r;
    assert rows == rows[..i] + [r] + rows[i + 1..];
    assert r !in rows[..i] && r !in rows[i + 1..];
  }

  lemma {:induction false} TwiceCounts(rows: seq<Row>, j: nat, l: nat)
    requires j < l < |rows| && rows[j] == rows[l]
    ensures multiset(rows)[rows[j]] >= 2
  {
    assert rows == rows[..l] + [rows[l]] + rows[l + 1..];
    assert rows[j] in rows[..l];
  }
}
