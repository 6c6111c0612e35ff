/** Merging node observations of one snapshot by canonical id. */
module NodeUpsert {
  import opened Prelude

  datatype Span = Span(startLine: int, startCol: int, endLine: int, endCol: int)
  datatype Location = Location(path: string, span: Span)

  /** A parsed node; `defined` is its meta flag when present. */
  datatype Node = Node(
    id: string, kind: string, name: string, qname: string, language: string, path: string, span: Span,
    defined: Option<bool>, extra: map<string, string>)
  {
    predicate IsDefinition() { defined == Some(true) }
    function Loc(): Location { Location(path, span) }
  }

  datatype Row = Row(
    kind: string, name: string, qname: string, language: string, path: string, span: Span,
    defined: Option<bool>, extra: map<string, string>, locations: seq<Location>)
  {
    predicate WasDefined() { defined == Some(true) }
  }

  datatype Collision = DifferentDescriptor | MultipleDefinitions(first: string, second: string)

  predicate FunctionLike(kind: string) {
    kind in {"FUNCTION", "METHOD", "SUBROUTINE"}
  }

  function Elsewhere(locations: seq<Location>, path: string): (r: seq<Location>)
    ensures forall l :: l in r <==> l in locations && l.path != path
  {
    if locations == [] then []
    else
      assert locations == [locations[0]] + locations[1..];
      (if locations[0].path != path then [locations[0]] else []) + Elsewhere(locations[1..], path)
  }

  /** The new location list: an observation of the row's own path replaces the old ones there. */
  function MergeLocations(row: Row, node: Node): seq<Location> {
    var kept := if row.path == node.path then Elsewhere(row.locations, node.path) else row.locations;
    if node.Loc() in kept then kept else kept + [node.Loc()]
  }

  function Merge(row: Option<Row>, node: Node): Result<Row, Collision> {
    match row
    case None =>
      Ok(Row(node.kind, node.name, node.qname, node.language, node.path, node.span, node.defined, node.extra,
          [node.Loc()]))
    case Some(r) =>
      if r.language != node.language || r.kind != node.kind || r.qname != node.qname then Err(DifferentDescriptor)
      else if r.path != node.path && r.WasDefined() && node.IsDefinition() && FunctionLike(node.kind) then
        Err(MultipleDefinitions(r.path, node.path))
      else
        var defined :=
          if r.defined.None? && node.defined.None? then None else Some(r.WasDefined() || node.IsDefinition());
        var merged := r.(defined := defined, extra := node.extra + r.extra, locations := MergeLocations(r, node));
        if node.IsDefinition() || (r.path == node.path && !r.WasDefined()) then
          Ok(merged.(name := node.name, language := node.language, path := node.path, span := node.span))
        else Ok(merged)
  }

  class NodeTable {
    var rows: map<string, Row>

    constructor ()
      ensures rows == map[]
    {
      rows := map[];
    }

    /**
     A collision leaves the table unchanged; otherwise only the node's own row changes. What
     was seen at the row's own path gives way to a new observation there.
     */
    method Upsert(node: Node) returns (r: Result<bool, Collision>)
      modifies this
      ensures var before := if node.id in old(rows) then Some(old(rows)[node.id]) else None;
              match Merge(before, node)
              case Err(e) => r == Err(e) && rows == old(rows)
              case Ok(row) => r == Ok(before.None?) && rows == old(rows)[node.id := row]
      ensures r == Ok(false) ==>
                && node.id in old(rows) && node.id in rows
                && forall l :: l in rows[node.id].locations <==>
                     || l == node.Loc()
                     || (l in old(rows)[node.id].locations && !(l.path == node.path == old(rows)[node.id].path))
    {
      if node.id in rows {
        var row := rows[node.id];
        if row.language != node.language || row.kind != node.kind || row.qname != node.qname {
          return Err(DifferentDescriptor);
        }
        var wasDefined, isDefinition := row.WasDefined(), node.IsDefinition();
        if row.path != node.path && wasDefined && isDefinition && FunctionLike(node.kind) {
          return Err(MultipleDefinitions(row.path, node.path));
        }
        var locations := row.locations;
        if row.path == node.path {
          locations := Elsewhere(locations, node.path);
        }
        if node.Loc() !in locations {
          locations := locations + [node.Loc()];
        }
        var defined := row.defined;
        if row.defined.Some? || node.defined.Some? {
          defined := Some(wasDefined || isDefinition);
        }
        var merged := row.(defined := defined, extra := node.extra + row.extra, locations := locations);
        if isDefinition || (row.path == node.path && !wasDefined) {
          merged := merged.(name := node.name, language := node.language, path := node.path, span := node.span);
        }
        rows := rows[node.id := merged];
        return Ok(false);
      }
      rows := rows[node.id := Row(node.kind, node.name, node.qname, node.language, node.path, node.span,
                                  node.defined, node.extra, [node.Loc()])];
      r := Ok(true);
    }
  }

  // ---------- any sequence of observations of one node ----------

  function MergeAll(nodes: seq<Node>): Result<Option<Row>, Collision> {
    if nodes == [] then Ok(None)
    else
      match MergeAll(nodes[..|nodes| - 1])
      case Err(e) => Err(e)
      case Ok(row) =>
        match Merge(row, nodes[|nodes| - 1])
        case Err(e) => Err(e)
        case Ok(next) => Ok(Some(next))
  }

  ghost predicate SameDescriptor(nodes: seq<Node>) {
    forall i, j :: 0 <= i < j < |nodes| ==>
      nodes[i].kind == nodes[j].kind && nodes[i].language == nodes[j].language && nodes[i].qname == nodes[j].qname
  }

  ghost predicate DefinedAt(nodes: seq<Node>, i: int) {
    0 <= i < |nodes| && nodes[i].IsDefinition()
  }

  ghost predicate TwoPathsDefine(nodes: seq<Node>) {
    exists i, j :: DefinedAt(nodes, i) && DefinedAt(nodes, j) && nodes[i].path != nodes[j].path
  }

  ghost predicate LastDefinition(nodes: seq<Node>, i: int) {
    DefinedAt(nodes, i) && forall j :: i < j < |nodes| ==> !DefinedAt(nodes, j)
  }

  /** The last observation at the path the node was first seen at. */
  ghost predicate LastAtFirstPath(nodes: seq<Node>, i: int) {
    0 <= i < |nodes| && nodes[i].path == nodes[0].path && forall j :: i < j < |nodes| ==> nodes[j].path != nodes[0].path
  }

  function PathsOf(locations: seq<Location>): set<string> {
    set l | l in locations :: l.path
  }

  function PathsSeen(nodes: seq<Node>): set<string> {
    set k | 0 <= k < |nodes| :: nodes[k].path
  }

  ghost predicate StoredFrom(row: Row, node: Node) {
    row.path == node.path && row.span == node.span && row.name == node.name
  }

  /** Definitions win: the row is defined iff some observation is, and then stores the last definition. */
  ghost predicate TellsDefinition(row: Row, nodes: seq<Node>) {
    && (row.WasDefined() <==> exists i :: DefinedAt(nodes, i))
    && (forall i :: LastDefinition(nodes, i) ==> StoredFrom(row, nodes[i]))
    && (!row.WasDefined() ==> nodes != [] && row.path == nodes[0].path)
    && (!row.WasDefined() ==> forall i :: LastAtFirstPath(nodes, i) ==> StoredFrom(row, nodes[i]))
  }

  /** Every path observed has a location, no other path has, and the last observation is among them. */
  ghost predicate TellsLocations(row: Row, nodes: seq<Node>) {
    && PathsOf(row.locations) == PathsSeen(nodes)
    && nodes != [] && nodes[|nodes| - 1].Loc() in row.locations
  }

  /** Observation i is the first that has a value for the key. */
  ghost predicate FirstWith(nodes: seq<Node>, i: int, key: string) {
    0 <= i < |nodes| && key in nodes[i].extra && forall j :: 0 <= j < i ==> key !in nodes[j].extra
  }

  /** The first observation of a key stays; the definition flag is absent only if no observation had one. */
  ghost predicate TellsMeta(row: Row, nodes: seq<Node>) {
    && (forall key :: key in row.extra ==> exists i :: FirstWith(nodes, i, key))
    && (forall i, key :: FirstWith(nodes, i, key) ==> key in row.extra && row.extra[key] == nodes[i].extra[key])
    && (row.defined.None? <==> forall i :: 0 <= i < |nodes| ==> nodes[i].defined.None?)
  }

  ghost predicate NoRepeats(locations: seq<Location>) {
    forall x, y :: 0 <= x < y < |locations| ==> locations[x] != locations[y]
  }

  /** No location is stored twice, and each was observed. */
  ghost predicate LocationsObserved(row: Row, nodes: seq<Node>) {
    && NoRepeats(row.locations)
    && forall l :: l in row.locations ==> exists i :: 0 <= i < |nodes| && nodes[i].Loc() == l
  }

  ghost predicate RowTells(row: Row, nodes: seq<Node>) {
    && nodes != [] && row.kind == nodes[0].kind && row.language == nodes[0].language && row.qname == nodes[0].qname
    && TellsDefinition(row, nodes) && TellsLocations(row, nodes)
    && TellsMeta(row, nodes) && LocationsObserved(row, nodes)
  }

  lemma {:induction false} MergeTellsMeta(row: Row, nodes: seq<Node>, node: Node)
    requires TellsMeta(row, nodes) && Merge(Some(row), node).Ok?
    ensures TellsMeta(Merge(Some(row), node).value, nodes + [node])
  {
    var all, next := nodes + [node], Merge(Some(row), node).value;
    assert next.extra == node.extra + row.extra;
    assert next.defined.None? <==> row.defined.None? && node.defined.None?;
    assert forall i :: 0 <= i < |nodes| ==> all[i] == nodes[i];
    forall i, key ensures FirstWith(all, i, key) <==>
        FirstWith(nodes, i, key) || (i == |nodes| && key in node.extra && key !in row.extra) {
      assert key in row.extra ==> exists k :: 0 <= k < |nodes| && key in all[k].extra;
      if i == |nodes| && key in node.extra && key !in row.extra {
        forall j | 0 <= j < |nodes| ensures key !in nodes[j].extra {
          if key in nodes[j].extra {
            var k := LeastWith(nodes, j, key);
          }
        }
      }
    }
    hide Merge;
    forall key | key in next.extra ensures exists i :: FirstWith(all, i, key) {
      if key in row.extra {
        var k :| FirstWith(nodes, k, key);
        assert FirstWith(all, k, key);
      } else {
        assert FirstWith(all, |nodes|, key);
      }
    }
    forall i, key | FirstWith(all, i, key) ensures key in next.extra && next.extra[key] == all[i].extra[key] {
      if i < |nodes| {
        assert FirstWith(nodes, i, key);
      } else {
        assert all[i] == node;
      }
    }
    assert all[|nodes|] == node;
  }

  lemma {:induction false} LeastWith(nodes: seq<Node>, j: int, key: string) returns (k: int)
    requires 0 <= j < |nodes| && key in nodes[j].extra
    ensures FirstWith(nodes, k, key)
    decreases j
  {
    if i :| 0 <= i < j && key in nodes[i].extra {
      k := LeastWith(nodes, i, key);
    } else {
      k := j;
    }
  }

  lemma {:induction false} OneMoreLocation(locations: seq<Location>, l: Location)
    requires NoRepeats(locations) && l !in locations
    ensures NoRepeats(locations + [l]) && NoRepeats([l] + locations)
  {
    var all := [l] + locations;
    forall x, y | 0 <= x < y < |all| ensures all[x] != all[y] {
      assert all[y] == locations[y - 1];
    }
  }

  lemma {:induction false} ElsewhereKeepsDistinct(locations: seq<Location>, path: string)
    requires NoRepeats(locations)
    ensures NoRepeats(Elsewhere(locations, path))
  {
    if locations != [] {
      var rest := locations[1..];
      forall k | 0 <= k < |rest| ensures rest[k] != locations[0] {
        assert rest[k] == locations[k + 1];
      }
      ElsewhereKeepsDistinct(rest, path);
      OneMoreLocation(Elsewhere(rest, path), locations[0]);
    }
  }

  lemma {:induction false} MergeKeepsObserved(row: Row, nodes: seq<Node>, node: Node)
    requires LocationsObserved(row, nodes) && Merge(Some(row), node).Ok?
    ensures LocationsObserved(Merge(Some(row), node).value, nodes + [node])
  {
    var all, next := nodes + [node], Merge(Some(row), node).value;
    ElsewhereKeepsDistinct(row.locations, node.path);
    assert next.locations == MergeLocations(row, node);
    hide Merge;
    var kept := if row.path == node.path then Elsewhere(row.locations, node.path) else row.locations;
    if node.Loc() !in kept {
      OneMoreLocation(kept, node.Loc());
    }
    hide NoRepeats;
    forall l | l in next.locations ensures exists i :: 0 <= i < |all| && all[i].Loc() == l {
      if l == node.Loc() {
        assert all[|nodes|] == node;
      } else {
        var i :| 0 <= i < |nodes| && nodes[i].Loc() == l;
        assert all[i] == nodes[i];
      }
    }
  }

  lemma {:induction false} ALastDefinition(nodes: seq<Node>, i: nat) returns (k: nat)
    requires DefinedAt(nodes, i)
    ensures LastDefinition(nodes, k)
    decreases |nodes| - i
  {
    if j :| i < j < |nodes| && DefinedAt(nodes, j) {
      k := ALastDefinition(nodes, j);
    } else {
      k := i;
    }
  }

  lemma {:induction false} DefinitionsOfPrefix(nodes: seq<Node>, node: Node)
    ensures forall i :: DefinedAt(nodes + [node], i) <==> DefinedAt(nodes, i) || (i == |nodes| && node.IsDefinition())
    ensures node.IsDefinition() ==> forall i :: LastDefinition(nodes + [node], i) <==> i == |nodes|
    ensures !node.IsDefinition() ==> forall i :: LastDefinition(nodes + [node], i) <==> LastDefinition(nodes, i)
  {
    var all := nodes + [node];
    assert forall i :: 0 <= i < |nodes| ==> all[i] == nodes[i];
    if !node.IsDefinition() {
      forall i ensures LastDefinition(all, i) <==> LastDefinition(nodes, i) {
        if LastDefinition(all, i) {
          forall j | i < j < |nodes| ensures !DefinedAt(nodes, j) { assert !DefinedAt(all, j); }
        } else if LastDefinition(nodes, i) {
          forall j | i < j < |all| ensures !DefinedAt(all, j) { assert j < |nodes| ==> !DefinedAt(nodes, j); }
        }
      }
    } else {
      assert DefinedAt(all, |nodes|);
    }
  }

  lemma {:induction false} FirstPathOfPrefix(nodes: seq<Node>, node: Node)
    requires nodes != []
    ensures node.path == nodes[0].path ==> forall i :: LastAtFirstPath(nodes + [node], i) ==> i == |nodes|
    ensures node.path != nodes[0].path ==> forall i :: LastAtFirstPath(nodes + [node], i) ==> LastAtFirstPath(nodes, i)
  {
    var all := nodes + [node];
    assert all[|nodes|] == node && all[0] == nodes[0];
    forall i | LastAtFirstPath(all, i) && node.path != nodes[0].path ensures LastAtFirstPath(nodes, i) {
      assert i < |nodes|;
      forall j | i < j < |nodes| ensures nodes[j].path != nodes[0].path { assert all[j] == nodes[j]; }
    }
  }

  lemma {:induction false} MergeTellsDefinition(row: Row, nodes: seq<Node>, node: Node)
    requires nodes != [] && TellsDefinition(row, nodes) && Merge(Some(row), node).Ok?
    ensures TellsDefinition(Merge(Some(row), node).value, nodes + [node])
  {
    var all, next := nodes + [node], Merge(Some(row), node).value;
    DefinitionsOfPrefix(nodes, node);
    FirstPathOfPrefix(nodes, node);
    assert next.WasDefined() <==> row.WasDefined() || node.IsDefinition();
    if node.IsDefinition() {
      assert DefinedAt(all, |nodes|);
    } else if i :| DefinedAt(nodes, i) {
      assert DefinedAt(all, i);
    }
    forall i | LastDefinition(all, i) ensures StoredFrom(next, all[i]) {
      if !node.IsDefinition() {
        assert LastDefinition(nodes, i) && StoredFrom(row, nodes[i]);
      }
    }
    if !next.WasDefined() {
      forall i | LastAtFirstPath(all, i) ensures StoredFrom(next, all[i]) {
        if node.path != nodes[0].path {
          assert LastAtFirstPath(nodes, i) && StoredFrom(row, nodes[i]);
        }
      }
    }
  }

  lemma {:induction false} MergeTellsLocations(row: Row, nodes: seq<Node>, node: Node)
    requires TellsLocations(row, nodes) && Merge(Some(row), node).Ok?
    ensures TellsLocations(Merge(Some(row), node).value, nodes + [node])
  {
    var all, next := nodes + [node], Merge(Some(row), node).value;
    assert PathsSeen(all) == PathsSeen(nodes) + {node.path} by {
      assert all[|nodes|] == node;
      forall k | 0 <= k < |nodes| ensures nodes[k].path in PathsSeen(all) { assert all[k] == nodes[k]; }
    }
    assert next.locations == MergeLocations(row, node);
    forall p ensures p in PathsOf(next.locations) <==> p in PathsOf(row.locations) || p == node.path {
      if p == node.path {
        assert node.Loc() in next.locations && node.Loc().path == p;
      } else if p in PathsOf(row.locations) {
        var l :| l in row.locations && l.path == p;
        assert l in next.locations;
      }
    }
  }

  lemma {:induction false} CollisionIffTwoPaths(row: Row, nodes: seq<Node>, node: Node)
    requires nodes != [] && TellsDefinition(row, nodes) && !TwoPathsDefine(nodes)
    ensures TwoPathsDefine(nodes + [node]) <==> row.WasDefined() && node.IsDefinition() && row.path != node.path
  {
    var all := nodes + [node];
    DefinitionsOfPrefix(nodes, node);
    if row.WasDefined() && node.IsDefinition() {
      var i :| DefinedAt(nodes, i);
      var k := ALastDefinition(nodes, i);
      assert StoredFrom(row, nodes[k]);
      assert DefinedAt(all, k) && DefinedAt(all, |nodes|) && all[k] == nodes[k] && all[|nodes|] == node;
      if TwoPathsDefine(all) {
        var a, b :| DefinedAt(all, a) && DefinedAt(all, b) && all[a].path != all[b].path;
        var c := if a == |nodes| then b else a;
        assert DefinedAt(nodes, c) && nodes[c].path == nodes[k].path;
      }
    }
  }

  lemma {:induction false} FirstObservation(node: Node)
    ensures MergeAll([node]).Ok? && MergeAll([node]).value.Some?
    ensures RowTells(MergeAll([node]).value.value, [node]) && !TwoPathsDefine([node])
  {
    var nodes := [node];
    assert nodes[..0] == [];
    assert DefinedAt(nodes, 0) <==> node.IsDefinition();
    assert PathsSeen(nodes) == {node.path} && PathsOf([node.Loc()]) == {node.path};
    forall key ensures FirstWith(nodes, 0, key) <==> key in node.extra {
    }
    assert nodes[0].Loc() == node.Loc();
  }

  lemma {:induction false} TwoPathsStay(nodes: seq<Node>, node: Node)
    requires TwoPathsDefine(nodes)
    ensures TwoPathsDefine(nodes + [node])
  {
    var all := nodes + [node];
    var i, j :| DefinedAt(nodes, i) && DefinedAt(nodes, j) && nodes[i].path != nodes[j].path;
    assert DefinedAt(all, i) && DefinedAt(all, j);
  }

  /** One more observation, when the row so far tells those before it. */
  lemma {:induction false} NextObservation(row: Row, nodes: seq<Node>, node: Node)
    requires RowTells(row, nodes) && SameDescriptor(nodes + [node]) && Merge(Some(row), node).Ok?
    ensures RowTells(Merge(Some(row), node).value, nodes + [node])
  {
    hide TellsDefinition, TellsLocations, TellsMeta, LocationsObserved;
    var all := nodes + [node];
    assert all[0] == nodes[0] && all[|nodes|] == node;
    MergeTellsMeta(row, nodes, node);
    MergeKeepsObserved(row, nodes, node);
    MergeTellsDefinition(row, nodes, node);
    MergeTellsLocations(row, nodes, node);
  }

  /**
   Any order of observations of one function-like node: a collision is raised
   exactly when two definitions come from different paths; otherwise the stored
   row tells the last definition (or the last declaration at the first path).
   */
  lemma {:induction false} ObservationsInAnyOrder(nodes: seq<Node>)
    requires nodes != [] && SameDescriptor(nodes)
    ensures MergeAll(nodes).Err? <==>
      TwoPathsDefine(nodes)
      && (nodes[0].kind == "FUNCTION" || nodes[0].kind == "METHOD" || nodes[0].kind == "SUBROUTINE")
    ensures MergeAll(nodes).Err? ==> MergeAll(nodes).error.MultipleDefinitions?
    ensures MergeAll(nodes).Ok? ==> MergeAll(nodes).value.Some? && RowTells(MergeAll(nodes).value.value, nodes)
    decreases |nodes|
  {
    hide TellsDefinition, TellsLocations, TellsMeta, LocationsObserved, TwoPathsDefine;
    var n := |nodes| - 1;
    var before, node := nodes[..n], nodes[n];
    assert nodes == before + [node];
    if n == 0 {
      assert nodes == [node];
      FirstObservation(node);
    } else {
      ObservationsInAnyOrder(before);
      assert nodes[0].kind == node.kind && nodes[0].language == node.language && nodes[0].qname == node.qname;
      if MergeAll(before).Ok? {
        var row := MergeAll(before).value.value;
        if FunctionLike(nodes[0].kind) {
          CollisionIffTwoPaths(row, before, node);
        }
        if Merge(Some(row), node).Ok? {
          NextObservation(row, before, node);
        }
      } else {
        TwoPathsStay(before, node);
      }
    }
  }
}
