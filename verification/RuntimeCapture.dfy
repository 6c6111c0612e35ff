/**
 Issuing a bounded run receipt, and exactly when the receipt issued is one the
 validator accepts.
 */
module RuntimeCapture {
  import opened Prelude
  import opened TraceDecoder
  import opened RuntimeEvidence

  /** A bounded build and the endpoint receipts issued for it. */
  datatype Build = Build(
    binaryPath: string, sourcePath: string, binary: Digest, sourceRevision: Digest, config: string,
    compiler: string, compileArgv: seq<string>, linkArgv: seq<string>)
  {
    function Identity(): BuildId { BuildId(compiler, sourceRevision, compileArgv, linkArgv, config) }
  }

  /** One execution of the instrumented binary, whose trace file is at `tracePath`. */
  datatype Execution = Execution(
    runId: string, workload: string, window: string, exitCode: int, tracePath: string, trace: Content)

  datatype Request = Request(
    build: Build, endpoints: EndpointMap, canonicalRevision: string, source: NodeId, target: NodeId,
    calibration: Option<Artifact>)
  {
    function OffsetOfNode(node: NodeId): int
      requires node in Keys(endpoints)
    {
      Lookup(endpoints, node).value.payload.imageOffset
    }
  }

  /** What bridge_exact_endpoints guarantees of the receipts it hands over. */
  ghost predicate Bridged(r: Request) {
    && {r.source, r.target} <= Keys(r.endpoints)
    && "" !in Keys(r.endpoints)
    && DistinctOffsets(r.endpoints)
    && forall k :: 0 <= k < |r.endpoints| ==>
         var p := r.endpoints[k].1.payload;
         && p.node == r.endpoints[k].0 && r.endpoints[k].1.id == EndpointId(p)
         && p.binary == r.build.binary && p.build == r.build.Identity()
         && p.sourceRevision == r.build.sourceRevision && p.canonicalRevision == r.canonicalRevision
  }

  function BridgeOf(r: Request, source: NodeId, target: NodeId): BridgeId
    requires {source, target} <= Keys(r.endpoints)
  {
    BridgeId(Lookup(r.endpoints, source).value.id, Lookup(r.endpoints, target).value.id, r.build.binary,
        r.canonicalRevision)
  }

  function OwnBridge(r: Request): (bridge: EndpointMap)
    requires {r.source, r.target} <= Keys(r.endpoints)
    ensures Keys(bridge) == {r.source, r.target}
    ensures Lookup(bridge, r.source) == Lookup(r.endpoints, r.source)
    ensures Lookup(bridge, r.target) == Lookup(r.endpoints, r.target)
  {
    var s, t := Lookup(r.endpoints, r.source).value, Lookup(r.endpoints, r.target).value;
    if r.source == r.target then
      var one := [(r.source, s)];
      assert one[0].0 in Keys(one);
      one
    else
      var two := [(r.source, s), (r.target, t)];
      assert two[0].0 in Keys(two) && two[1].0 in Keys(two);
      assert two[1..] == [(r.target, t)];
      two
  }

  function RowOf(r: Request, d: Decoded, pair: (int, int)): seq<Edge>
    requires pair in d.edges
  {
    var table := OffsetTable(r.endpoints);
    if pair.0 !in table || pair.1 !in table then []
    else
      var p, c := table[pair.0], table[pair.1];
      match (Lookup(r.endpoints, p), Lookup(r.endpoints, c))
      case (Some(pe), Some(ce)) =>
        if p == "" || c == "" then []
        else [Edge(pair.0, pair.1, true, true, p, c, pe.id, ce.id,
                   BridgeId(pe.id, ce.id, r.build.binary, r.canonicalRevision), d.edges[pair])]
      case _ => []
  }

  function Rows(r: Request, d: Decoded, pairs: seq<(int, int)>): seq<Edge>
    requires forall k :: 0 <= k < |pairs| ==> pairs[k] in d.edges
  {
    if pairs == [] then [] else Rows(r, d, pairs[..|pairs| - 1]) + RowOf(r, d, pairs[|pairs| - 1])
  }

  method CollectRows(r: Request, d: Decoded, pairs: seq<(int, int)>) returns (rows: seq<Edge>)
    requires forall k :: 0 <= k < |pairs| ==> pairs[k] in d.edges
    ensures rows == Rows(r, d, pairs)
  {
    rows := [];
    for i := 0 to |pairs|
      invariant rows == Rows(r, d, pairs[..i])
    {
      assert pairs[..i + 1][..i] == pairs[..i];
      rows := rows + RowOf(r, d, pairs[i]);
    }
    assert pairs[..|pairs|] == pairs;
  }

  /** The caller's calibration counts when it is complete, of this binary, and has the pair. */
  predicate Calibrated(r: Request) {
    && r.calibration.Some?
    && r.calibration.value.run.identity.binary == r.build.binary
    && r.calibration.value.run.integrity.status == COMPLETE
    && HasRow(r.calibration.value, r.source, r.target)
  }

  function Capture(r: Request, x: Execution, d: Decoded, rows: seq<Edge>): Artifact
    requires {r.source, r.target} <= Keys(r.endpoints)
  {
    var integrity := if x.exitCode == 0 && d.Complete() then COMPLETE else PARTIAL;
    var so, to := r.OffsetOfNode(r.source), r.OffsetOfNode(r.target);
    var observed := (so, to) in d.edges;
    var entered := Count(d.entered, so) > 0;
    var status := if integrity == COMPLETE && entered && (observed || Calibrated(r)) then COMPLETE else PARTIAL;
    var id := Identity(x.runId, r.build.binary, r.build.Identity(), InstrumentationId(r.build.config),
                       r.canonicalRevision, r.build.sourceRevision, "OBSERVED_CALL", x.workload, Some(x.window));
    var calibration := if Calibrated(r) then Some(r.calibration.value.run.identity.runId) else None;
    var payload := CoveragePayload(
      COVERAGE_SCHEMA, id, r.source, r.target, Sha256(x.trace), integrity, entered, observed, calibration, status);
    var run := Run(id, PROVIDER, r.build.binaryPath, r.build.sourcePath, r.build.sourceRevision, r.build.config,
                   r.build.compiler, r.build.compileArgv, r.build.linkArgv, [r.build.binaryPath, x.workload],
                   Some(x.tracePath), BridgeOf(r, r.source, r.target), x.exitCode,
                   Integrity(integrity, d.enters, d.exits, Sha256(x.trace)),
                   RelationCoverage(status, "CALLS", r.source, r.target, CoverageId(payload)), true);
    Artifact(run, rows, OwnBridge(r), Coverage(CoverageId(payload), payload), x.tracePath)
  }

  /** The files the capture worked on, still as it left them. */
  ghost predicate Retained(w: World, r: Request, x: Execution) {
    && r.build.binaryPath in w.files && Sha256(w.files[r.build.binaryPath]) == r.build.binary
    && r.build.sourcePath in w.files && Sha256(w.files[r.build.sourcePath]) == r.build.sourceRevision
    && x.tracePath in w.files && w.files[x.tracePath] == x.trace
    && w.symbols(w.files[r.build.binaryPath]).Some?
  }

  function Captured(w: World, r: Request, x: Execution, pairs: seq<(int, int)>): Artifact
    requires Bridged(r) && Retained(w, r, x)
    requires var d := Decode(w.num, x.trace, w.symbols(w.files[r.build.binaryPath]).value);
             forall k :: 0 <= k < |pairs| ==> pairs[k] in d.edges
  {
    var d := Decode(w.num, x.trace, w.symbols(w.files[r.build.binaryPath]).value);
    Capture(r, x, d, Rows(r, d, pairs))
  }

  /** Every recorded pair between bridged endpoints stays within the two endpoints of this relation. */
  ghost predicate OnlyOwnEndpoints(r: Request, d: Decoded) {
    var table := OffsetTable(r.endpoints);
    forall pair :: pair in d.edges && pair.0 in table && pair.1 in table ==>
      table[pair.0] in {r.source, r.target} && table[pair.1] in {r.source, r.target}
  }

  ghost predicate Enumerates(pairs: seq<(int, int)>, keys: set<(int, int)>) {
    && (forall k :: 0 <= k < |pairs| ==> pairs[k] in keys)
    && (forall p :: p in keys ==> p in pairs)
    && (forall i, j :: 0 <= i < j < |pairs| ==> pairs[i] != pairs[j])
  }

  /** A complete run of this very binary with a row for the pair was handed in. */
  ghost predicate ProvenTarget(r: Request, calibration: Artifact) {
    && calibration.run.integrity.status == COMPLETE && calibration.run.identity.binary == r.build.binary
    && exists k :: 0 <= k < |calibration.edges|
         && (calibration.edges[k].parent, calibration.edges[k].child) == (r.source, r.target)
  }

  /** What the receipt of a capture claims: never more than the trace and a proven target allow. */
  lemma {:induction false} CapturedCoverage(r: Request, x: Execution, d: Decoded, rows: seq<Edge>)
    requires {r.source, r.target} <= Keys(r.endpoints)
    ensures var cov := Capture(r, x, d, rows).coverage.payload;
      && (cov.integrity == COMPLETE <==> x.exitCode == 0 && d.errors == {})
      && (cov.sourceEntered <==> Count(d.entered, r.OffsetOfNode(r.source)) > 0)
      && (cov.targetObserved <==> (r.OffsetOfNode(r.source), r.OffsetOfNode(r.target)) in d.edges)
      && (cov.calibration.Some? <==> r.calibration.Some? && ProvenTarget(r, r.calibration.value))
      && (cov.calibration.Some? ==> cov.calibration == Some(r.calibration.value.run.identity.runId))
      && (cov.status == COMPLETE <==>
            cov.integrity == COMPLETE && cov.sourceEntered && (cov.targetObserved || cov.calibration.Some?))
      && cov.identity.semantics == "OBSERVED_CALL"
  {
  }

  // ---------- proof ----------

  lemma {:induction false} PositiveEdges(known: set<int>, s: Scan, events: seq<Event>)
    requires forall p :: p in s.edges ==> s.edges[p] > 0
    ensures forall p :: p in ScanFrom(known, s, events).edges ==> ScanFrom(known, s, events).edges[p] > 0
    decreases |events|
  {
    if events != [] {
      PositiveEdges(known, Step(known, s, events[0]), events[1..]);
    }
  }

  lemma {:induction false} TableOfAll(r: Request, node: NodeId)
    requires Bridged(r) && node in Keys(r.endpoints)
    ensures var o := r.OffsetOfNode(node); o in OffsetTable(r.endpoints) && OffsetTable(r.endpoints)[o] == node
    ensures forall o :: o in OffsetTable(r.endpoints) && OffsetTable(r.endpoints)[o] == node ==>
              o == r.OffsetOfNode(node)
  {
    hide OffsetTable, DistinctOffsets, Keys;
    forall o ensures o in OffsetTable(r.endpoints) && OffsetTable(r.endpoints)[o] == node <==>
        o == r.OffsetOfNode(node) {
      TableInverts(r.endpoints, node, o);
    }
  }

  lemma {:induction false} TableValuesAreKeys(bridge: EndpointMap, o: int)
    requires o in OffsetTable(bridge)
    ensures OffsetTable(bridge)[o] in Keys(bridge)
  {
    OffsetTableEntries(bridge);
  }

  lemma {:induction false} OwnTable(r: Request)
    requires Bridged(r)
    ensures DistinctOffsets(OwnBridge(r))
    ensures forall o :: o in OffsetTable(OwnBridge(r)) <==>
              o in OffsetTable(r.endpoints) && OffsetTable(r.endpoints)[o] in {r.source, r.target}
    ensures forall o :: o in OffsetTable(OwnBridge(r)) ==> OffsetTable(OwnBridge(r))[o] == OffsetTable(r.endpoints)[o]
  {
    TableOfAll(r, r.source);
    TableOfAll(r, r.target);
    OffsetTableEntries(OwnBridge(r));
    var so, to := r.OffsetOfNode(r.source), r.OffsetOfNode(r.target);
    if r.source == r.target {
      assert OffsetTable(OwnBridge(r)).Keys == {so};
    } else {
      assert so != to;
      var two := OwnBridge(r);
      assert two[..1] == [two[0]] && two[..1][..0] == [];
      assert OffsetTable(two[..1]) == map[so := r.source];
      assert OffsetTable(OwnBridge(r)).Keys == {so, to};
    }
  }

  lemma {:induction false} RowsOfPairs(r: Request, d: Decoded, pairs: seq<(int, int)>, a: int, b: int)
    requires Bridged(r)
    requires forall k :: 0 <= k < |pairs| ==> pairs[k] in d.edges
    requires forall i, j :: 0 <= i < j < |pairs| ==> pairs[i] != pairs[j]
    ensures var table := OffsetTable(r.endpoints);
            RowTotal(Rows(r, d, pairs), a, b) ==
            if (a, b) in pairs && a in table && b in table then d.edges[(a, b)] else 0
    decreases |pairs|
  {
    if pairs != [] {
      hide RowOf, OffsetTable, Bridged, RowTotal;
      var n := |pairs| - 1;
      var rest, row := Rows(r, d, pairs[..n]), RowOf(r, d, pairs[n]);
      RowsOfPairs(r, d, pairs[..n], a, b);
      assert pairs == pairs[..n] + [pairs[n]];
      RowShare(r, d, pairs[n], a, b);
      TotalOfAppended(rest, row, a, b);
    }
  }

  lemma {:induction false} RowShare(r: Request, d: Decoded, pair: (int, int), a: int, b: int)
    requires Bridged(r) && pair in d.edges
    ensures var row, table := RowOf(r, d, pair), OffsetTable(r.endpoints);
            && |row| <= 1
            && (if row != [] && (row[0].parentOffset, row[0].childOffset) == (a, b) then row[0].count else 0)
               == (if pair == (a, b) && a in table && b in table then d.edges[pair] else 0)
  {
    TableRow(r, d, pair);
    hide RowOf, OffsetTable, Bridged;
    var row := RowOf(r, d, pair);
    assert row != [] ==> row[0] in row;
  }

  lemma {:induction false} TotalOfAppended(rest: seq<Edge>, row: seq<Edge>, a: int, b: int)
    requires |row| <= 1
    ensures RowTotal(rest + row, a, b) == RowTotal(rest, a, b)
      + (if row != [] && (row[0].parentOffset, row[0].childOffset) == (a, b) then row[0].count else 0)
  {
    if row == [] {
      assert rest + row == rest;
    } else {
      assert (rest + row)[..|rest|] == rest;
    }
  }

  lemma {:induction false} TableRow(r: Request, d: Decoded, pair: (int, int))
    requires Bridged(r) && pair in d.edges
    ensures var table := OffsetTable(r.endpoints);
            RowOf(r, d, pair) != [] <==> pair.0 in table && pair.1 in table
    ensures forall e :: e in RowOf(r, d, pair) ==>
              var table := OffsetTable(r.endpoints);
              && (e.parentOffset, e.childOffset) == pair && e.count == d.edges[pair]
              && e.parent == table[pair.0] && e.child == table[pair.1]
    ensures |RowOf(r, d, pair)| <= 1
  {
    var table := OffsetTable(r.endpoints);
    if pair.0 in table && pair.1 in table {
      TableValuesAreKeys(r.endpoints, pair.0);
      TableValuesAreKeys(r.endpoints, pair.1);
    }
  }

  lemma {:induction false} RowsComeFromPairs(r: Request, d: Decoded, pairs: seq<(int, int)>)
    requires forall k :: 0 <= k < |pairs| ==> pairs[k] in d.edges
    ensures forall e :: e in Rows(r, d, pairs) ==> exists p :: p in pairs && e in RowOf(r, d, p)
    decreases |pairs|
  {
    if pairs != [] {
      var n := |pairs| - 1;
      RowsComeFromPairs(r, d, pairs[..n]);
      assert pairs == pairs[..n] + [pairs[n]];
    }
  }

  lemma {:induction false} PairsGiveRows(r: Request, d: Decoded, pairs: seq<(int, int)>, p: (int, int), e: Edge)
    requires forall k :: 0 <= k < |pairs| ==> pairs[k] in d.edges
    requires p in pairs && e in RowOf(r, d, p)
    ensures e in Rows(r, d, pairs)
    decreases |pairs|
  {
    var n := |pairs| - 1;
    if p != pairs[n] {
      assert p in pairs[..n];
      PairsGiveRows(r, d, pairs[..n], p, e);
    }
  }

  lemma {:induction false} OwnRowIsBound(r: Request, x: Execution, a: Artifact, d: Decoded, pair: (int, int), e: Edge)
    requires Bridged(r) && pair in d.edges && e in RowOf(r, d, pair)
    requires a == Capture(r, x, d, a.edges)
    ensures var table := OffsetTable(r.endpoints);
            EdgeBound(a, OffsetTable(a.bridge), e) <==>
            table[pair.0] in {r.source, r.target} && table[pair.1] in {r.source, r.target}
  {
    TableRow(r, d, pair);
    OwnTable(r);
  }

  lemma {:induction false} OwnRowsAreChecked(r: Request, x: Execution, d: Decoded, pairs: seq<(int, int)>)
    requires Bridged(r) && Enumerates(pairs, d.edges.Keys) && OnlyOwnEndpoints(r, d)
    ensures var a := Capture(r, x, d, Rows(r, d, pairs));
            EdgeCheck(a, d, OffsetTable(a.bridge)) == Verified
  {
    assert {r.source, r.target} <= Keys(r.endpoints);
    hide OffsetTable, RowTotal, Rows, EdgeBound, Bridged, RowOf;
    var rows := Rows(r, d, pairs);
    var a := Capture(r, x, d, rows);
    var own := OffsetTable(a.bridge);
    RowsComeFromPairs(r, d, pairs);
    forall k | 0 <= k < |a.edges| ensures EdgeBound(a, own, a.edges[k]) {
      assert a.edges[k] in rows;
      var p :| p in pairs && a.edges[k] in RowOf(r, d, p);
      TableRow(r, d, p);
      OwnRowIsBound(r, x, a, d, p, a.edges[k]);
    }
    OwnTable(r);
    forall p, c ensures RowTotal(a.edges, p, c) == ExpectedCount(d, own, p, c) {
      OwnRowTotal(r, d, pairs, own, p, c);
    }
  }

  lemma {:induction false} OwnRowTotal(
      r: Request, d: Decoded, pairs: seq<(int, int)>, own: map<int, NodeId>, p: int, c: int)
    requires Bridged(r) && Enumerates(pairs, d.edges.Keys) && OnlyOwnEndpoints(r, d)
    requires forall o :: o in own <==>
              o in OffsetTable(r.endpoints) && OffsetTable(r.endpoints)[o] in {r.source, r.target}
    ensures RowTotal(Rows(r, d, pairs), p, c) == ExpectedCount(d, own, p, c)
  {
    hide OffsetTable, RowTotal, Rows, Bridged;
    RowsOfPairs(r, d, pairs, p, c);
  }

  lemma {:induction false} ForeignRowIsRejected(r: Request, x: Execution, d: Decoded, pairs: seq<(int, int)>)
    requires Bridged(r) && Enumerates(pairs, d.edges.Keys) && !OnlyOwnEndpoints(r, d)
    ensures var a := Capture(r, x, d, Rows(r, d, pairs));
            EdgeCheck(a, d, OffsetTable(a.bridge)) != Verified
  {
    assert {r.source, r.target} <= Keys(r.endpoints);
    hide OffsetTable, RowTotal, Rows, EdgeBound, Bridged, RowOf, EdgeCheck, Enumerates, Keys;
    EnumeratesKeys(pairs, d.edges.Keys);
    var a, table := Capture(r, x, d, Rows(r, d, pairs)), OffsetTable(r.endpoints);
    assert a.edges == Rows(r, d, pairs);
    var pair :| pair in d.edges && pair.0 in table && pair.1 in table &&
                !(table[pair.0] in {r.source, r.target} && table[pair.1] in {r.source, r.target});
    TableRow(r, d, pair);
    var e := RowOf(r, d, pair)[0];
    PairsGiveRows(r, d, pairs, pair, e);
    var k :| 0 <= k < |a.edges| && a.edges[k] == e;
    OwnRowIsBound(r, x, a, d, pair, e);
    UnboundRowFails(a, d, OffsetTable(a.bridge), k);
  }

  lemma {:induction false} EnumeratesKeys(pairs: seq<(int, int)>, keys: set<(int, int)>)
    requires Enumerates(pairs, keys)
    ensures (forall k :: 0 <= k < |pairs| ==> pairs[k] in keys) && (forall p :: p in keys ==> p in pairs)
  {
  }

  lemma {:induction false} UnboundRowFails(a: Artifact, d: Decoded, offsets: map<int, NodeId>, k: nat)
    requires k < |a.edges| && !EdgeBound(a, offsets, a.edges[k])
    ensures EdgeCheck(a, d, offsets) != Verified
  {
  }

  lemma {:induction false} CapturedHeader(w: World, r: Request, x: Execution, d: Decoded, rows: seq<Edge>)
    requires Bridged(r) && Retained(w, r, x)
    ensures HeaderCheck(w, Capture(r, x, d, rows)) == Verified
  {
    var a := Capture(r, x, d, rows);
    OwnEndpointsCheck(r, a.run.identity);
    assert CommandConsistent(a) && RelationConsistent(a);
    assert RelationBridge(a.bridge, r.source, r.target, a.run.identity) == Some(a.run.bridge);
  }

  lemma {:induction false} OwnEndpointsCheck(r: Request, id: Identity)
    requires Bridged(r)
    requires id.binary == r.build.binary && id.build == r.build.Identity()
    requires id.sourceRevision == r.build.sourceRevision && id.canonicalRevision == r.canonicalRevision
    ensures EndpointChecks(OwnBridge(r), id) == Verified
  {
    var bridge := OwnBridge(r);
    forall k | 0 <= k < |bridge| ensures EndpointCheck(bridge[k], id) == Verified {
      var e := Lookup(r.endpoints, bridge[k].0).value;
      var j :| 0 <= j < |r.endpoints| && r.endpoints[j] == (bridge[k].0, e);
    }
  }

  /** The trace is whole, the source was entered, and the pair was seen in it. */
  ghost predicate SeenInWholeTrace(r: Request, x: Execution, d: Decoded)
    requires {r.source, r.target} <= Keys(r.endpoints)
  {
    x.exitCode == 0 && d.Complete() && Count(d.entered, r.OffsetOfNode(r.source)) > 0 ==>
      (r.OffsetOfNode(r.source), r.OffsetOfNode(r.target)) in d.edges
  }

  /** The run stored under the calibration's id is valid by itself, bound to the same endpoints, and has the pair. */
  ghost predicate CalibrationIsStored(w: World, r: Request, x: Execution)
    requires {r.source, r.target} <= Keys(r.endpoints) && r.calibration.Some?
  {
    var key := (w.parent(x.tracePath), r.calibration.value.run.identity.runId);
    && key in w.runs
    && Verdict(w, w.runs[key], false) == Verified
    && w.runs[key].run.identity.runId == key.1
    && w.runs[key].run.bridge == BridgeOf(r, r.source, r.target)
    && HasRow(w.runs[key], r.source, r.target)
  }

  /** Without a run id no calibration is looked up, so the trace has to show the pair itself. */
  ghost predicate CalibrationHolds(w: World, r: Request, x: Execution, d: Decoded)
    requires {r.source, r.target} <= Keys(r.endpoints)
  {
    Calibrated(r) ==>
      if r.calibration.value.run.identity.runId == "" then SeenInWholeTrace(r, x, d) else CalibrationIsStored(w, r, x)
  }

  /** The relation bridge of a validated header carries the binary and the revision of its run. */
  lemma {:induction false} BridgeBindsRun(w: World, c: Artifact)
    requires HeaderCheck(w, c) == Verified
    ensures c.run.bridge.binary == c.run.identity.binary
    ensures c.run.bridge.canonicalRevision == c.run.identity.canonicalRevision
  {
    HeaderFacts(w, c);
    hide HeaderCheck;
  }

  lemma {:induction false} CalibrationProvesIffStored(w: World, r: Request, x: Execution, d: Decoded, rows: seq<Edge>)
    requires Bridged(r) && HeaderCheck(w, Capture(r, x, d, rows)) == Verified
    requires Calibrated(r) && r.calibration.value.run.identity.runId != ""
    ensures CalibrationVerdict(w, Capture(r, x, d, rows), true) == Some(Verified) <==> CalibrationIsStored(w, r, x)
  {
    hide HeaderCheck, Verdict, HasRow, Bridged, OwnBridge;
    var key := (w.parent(x.tracePath), r.calibration.value.run.identity.runId);
    if key in w.runs && Verdict(w, w.runs[key], false) == Verified {
      VerifiedHasHeader(w, w.runs[key], false);
      BridgeBindsRun(w, w.runs[key]);
    }
  }

  /** With a good header and consistent observations the verdict rests on rows, calibration and completeness. */
  lemma {:induction false} VerdictOfConsistent(w: World, a: Artifact)
    requires HeaderCheck(w, a) == Verified && {a.coverage.payload.source, a.coverage.payload.target} <= Keys(a.bridge)
    requires IntegrityConsistent(w, a, DecodedTrace(w, a))
    requires var d, cov := DecodedTrace(w, a), a.coverage.payload;
             && cov.sourceEntered == (Count(d.entered, OffsetOf(a, cov.source)) > 0)
             && cov.targetObserved ==
                (ExpectedCount(d, OffsetTable(a.bridge), OffsetOf(a, cov.source), OffsetOf(a, cov.target)) > 0)
    ensures var d, cov, calibrated := DecodedTrace(w, a), a.coverage.payload, CalibrationVerdict(w, a, true);
            Verdict(w, a, true) == Verified <==>
              && EdgeCheck(a, d, OffsetTable(a.bridge)) == Verified
              && (calibrated.None? || calibrated.value == Verified)
              && (cov.status == COMPLETE <==>
                  cov.integrity == COMPLETE && cov.sourceEntered && (cov.targetObserved || calibrated.Some?))
  {
    hide HeaderCheck, EdgeCheck, CalibrationVerdict, Decode, OffsetTable, ExpectedCount;
  }

  lemma {:induction false} CapturedRowsCheckIff(r: Request, x: Execution, d: Decoded, pairs: seq<(int, int)>)
    requires Bridged(r) && Enumerates(pairs, d.edges.Keys)
    ensures var a := Capture(r, x, d, Rows(r, d, pairs));
            EdgeCheck(a, d, OffsetTable(a.bridge)) == Verified <==> OnlyOwnEndpoints(r, d)
  {
    assert {r.source, r.target} <= Keys(r.endpoints);
    hide EdgeCheck, OnlyOwnEndpoints, Rows, OffsetTable, Bridged, Enumerates;
    if OnlyOwnEndpoints(r, d) {
      OwnRowsAreChecked(r, x, d, pairs);
    } else {
      ForeignRowIsRejected(r, x, d, pairs);
    }
  }

  /** No id, no lookup. */
  lemma {:induction false} CalibrationIsConsultedIff(w: World, a: Artifact)
    requires HeaderCheck(w, a) == Verified
    ensures CalibrationVerdict(w, a, true).Some? <==>
            a.coverage.payload.calibration.Some? && a.coverage.payload.calibration.value != ""
  {
  }

  /**
   A captured receipt validates exactly when no third endpoint of the bridge took
   part in a recorded pair and the calibration it names, if any, is stored under
   its id, valid by itself, and has the pair between the same endpoints.
   */
  lemma {:induction false} CapturedArtifactValidates(w: World, r: Request, x: Execution, pairs: seq<(int, int)>)
    requires Bridged(r) && Retained(w, r, x)
    requires Enumerates(pairs, Decode(w.num, x.trace, w.symbols(w.files[r.build.binaryPath]).value).edges.Keys)
    ensures var d := Decode(w.num, x.trace, w.symbols(w.files[r.build.binaryPath]).value);
            var a := Captured(w, r, x, pairs);
            && HeaderCheck(w, a) == Verified
            && (Verdict(w, a, true) == Verified <==> OnlyOwnEndpoints(r, d) && CalibrationHolds(w, r, x, d))
  {
    var d := Decode(w.num, x.trace, w.symbols(w.files[r.build.binaryPath]).value);
    var a := Captured(w, r, x, pairs);
    assert {r.source, r.target} <= Keys(r.endpoints);
    assert a == Capture(r, x, d, Rows(r, d, pairs));
    CapturedHeader(w, r, x, d, a.edges);
    CapturedCounts(w, r, x, pairs);
    CapturedRowsCheckIff(r, x, d, pairs);
    hide HeaderCheck, EdgeCheck, CalibrationVerdict, Verdict, CalibrationIsStored, OnlyOwnEndpoints, Decode, Rows,
      OffsetTable, Retained, Bridged, Enumerates, OwnBridge, IntegrityConsistent, ExpectedCount;
    VerdictOfConsistent(w, a);
    CalibrationIsConsultedIff(w, a);
    if Calibrated(r) && r.calibration.value.run.identity.runId != "" {
      CalibrationProvesIffStored(w, r, x, d, a.edges);
    }
  }

  lemma {:induction false} CapturedCounts(w: World, r: Request, x: Execution, pairs: seq<(int, int)>)
    requires Bridged(r) && Retained(w, r, x)
    requires Enumerates(pairs, Decode(w.num, x.trace, w.symbols(w.files[r.build.binaryPath]).value).edges.Keys)
    requires HeaderCheck(w, Captured(w, r, x, pairs)) == Verified
    ensures var a := Captured(w, r, x, pairs);
            var d := DecodedTrace(w, a);
            && d == Decode(w.num, x.trace, w.symbols(w.files[r.build.binaryPath]).value)
            && IntegrityConsistent(w, a, d)
            && {r.source, r.target} <= Keys(a.bridge)
            && OffsetOf(a, r.source) == r.OffsetOfNode(r.source) && OffsetOf(a, r.target) == r.OffsetOfNode(r.target)
            && a.coverage.payload.targetObserved ==
               (ExpectedCount(d, OffsetTable(a.bridge), OffsetOf(a, r.source), OffsetOf(a, r.target)) > 0)
  {
    var a := Captured(w, r, x, pairs);
    var known := w.symbols(w.files[r.build.binaryPath]).value;
    PositiveEdges(known, Start(x.trace), ReadEvents(w.num, EventLines(x.trace)));
    OwnTable(r);
    TableOfAll(r, r.source);
    TableOfAll(r, r.target);
  }

  lemma {:induction false} RowsArePositive(r: Request, d: Decoded, pairs: seq<(int, int)>)
    requires Bridged(r) && forall k :: 0 <= k < |pairs| ==> pairs[k] in d.edges
    requires forall p :: p in d.edges ==> d.edges[p] > 0
    ensures PositiveCounts(Rows(r, d, pairs))
  {
    hide RowOf, OffsetTable, Bridged, Rows;
    var rows := Rows(r, d, pairs);
    RowsComeFromPairs(r, d, pairs);
    forall k | 0 <= k < |rows| ensures rows[k].count > 0 {
      assert rows[k] in rows;
      var p :| p in pairs && rows[k] in RowOf(r, d, p);
      TableRow(r, d, p);
    }
  }

  lemma {:induction false} CapturedFields(r: Request, x: Execution, d: Decoded, rows: seq<Edge>)
    requires {r.source, r.target} <= Keys(r.endpoints)
    ensures var a := Capture(r, x, d, rows);
            && a.edges == rows && a.bridge == OwnBridge(r) && a.run.backend == PROVIDER
                && a.run.identity.runId == x.runId
            && a.coverage.payload.source == a.run.relation.source == r.source
            && a.coverage.payload.target == a.run.relation.target == r.target
            && a.run.relation.kind == "CALLS"
            && (a.run.integrity.status == COMPLETE <==> x.exitCode == 0 && d.Complete())
            && (a.run.relation.status == COMPLETE <==>
                && x.exitCode == 0 && d.Complete() && Count(d.entered, r.OffsetOfNode(r.source)) > 0
                && ((r.OffsetOfNode(r.source), r.OffsetOfNode(r.target)) in d.edges || Calibrated(r)))
  {
  }

  /**
   From the tracer to the answer: a captured run that validates is OBSERVED exactly
   when its trace has the pair, and NOT_OBSERVED exactly when a whole trace entered
   the source without it and the calibration had it.
   */
  lemma {:induction false} CapturedRunIsAnswered(
      w: World, r: Request, x: Execution, pairs: seq<(int, int)>, identity: RelationIdentity)
    requires Bridged(r) && Retained(w, r, x)
    requires var d := Decode(w.num, x.trace, w.symbols(w.files[r.build.binaryPath]).value);
             && Enumerates(pairs, d.edges.Keys)
             && OnlyOwnEndpoints(r, d) && CalibrationHolds(w, r, x, d)
    requires identity.kind == "CALLS" && identity.source == r.source && identity.target == r.target
    requires ScopeReason(identity, Captured(w, r, x, pairs).run).None?
    ensures var d := Decode(w.num, x.trace, w.symbols(w.files[r.build.binaryPath]).value);
            var so, to := r.OffsetOfNode(r.source), r.OffsetOfNode(r.target);
            var state := StateOf(w, identity, x.runId, Some(Captured(w, r, x, pairs)));
            && (state == OBSERVED <==> Count(d.edges, (so, to)) > 0)
            && (state == NOT_OBSERVED <==>
                && x.exitCode == 0 && d.Complete() && Count(d.entered, so) > 0
                && Count(d.edges, (so, to)) == 0 && Calibrated(r))
  {
    var d := Decode(w.num, x.trace, w.symbols(w.files[r.build.binaryPath]).value);
    var a := Captured(w, r, x, pairs);
    assert a == Capture(r, x, d, Rows(r, d, pairs));
    CapturedArtifactValidates(w, r, x, pairs);
    CapturedCounts(w, r, x, pairs);
    CapturedRowsArePositive(w, r, x, pairs);
    OwnTable(r);
    CapturedFields(r, x, d, Rows(r, d, pairs));
    hide *;
    CapturedIsApplicable(w, identity, x.runId, a);
    ObservedIffTraceHasPair(w, identity, x.runId, a);
    CapturedAnswer(w, r, x, d, identity, a);
  }

  lemma {:induction false} CapturedRowsArePositive(w: World, r: Request, x: Execution, pairs: seq<(int, int)>)
    requires Bridged(r) && Retained(w, r, x)
    requires Enumerates(pairs, Decode(w.num, x.trace, w.symbols(w.files[r.build.binaryPath]).value).edges.Keys)
    ensures var d := Decode(w.num, x.trace, w.symbols(w.files[r.build.binaryPath]).value);
            PositiveCounts(Captured(w, r, x, pairs).edges) && forall p :: p in d.edges ==> d.edges[p] > 0
  {
    hide Bridged, Rows, PositiveCounts;
    var known := w.symbols(w.files[r.build.binaryPath]).value;
    var d := Decode(w.num, x.trace, known);
    PositiveEdges(known, Start(x.trace), ReadEvents(w.num, EventLines(x.trace)));
    RowsArePositive(r, d, pairs);
  }

  lemma {:induction false} CapturedIsApplicable(w: World, identity: RelationIdentity, runId: string, a: Artifact)
    requires ScopeReason(identity, a.run).None? && a.run.identity.runId == runId && Verdict(w, a, true) == Verified
    ensures Inapplicable(w, identity, runId, Some(a)).None?
  {
    hide Verdict, ScopeReason;
  }

  lemma {:induction false} CapturedAnswer(
      w: World, r: Request, x: Execution, d: Decoded, identity: RelationIdentity, a: Artifact)
    requires {r.source, r.target} <= Keys(r.endpoints) && identity.kind == a.run.relation.kind
    requires identity.source == a.run.relation.source && identity.target == a.run.relation.target
    requires Inapplicable(w, identity, x.runId, Some(a)).None? && (forall p :: p in d.edges ==> d.edges[p] > 0)
    requires a.run.integrity.status == COMPLETE <==> x.exitCode == 0 && d.Complete()
    requires var pair := (r.OffsetOfNode(r.source), r.OffsetOfNode(r.target));
             && (a.run.relation.status == COMPLETE <==>
                 && x.exitCode == 0 && d.Complete() && Count(d.entered, pair.0) > 0
                     && (pair in d.edges || Calibrated(r)))
             && (StateOf(w, identity, x.runId, Some(a)) == OBSERVED <==> Count(d.edges, pair) > 0)
    ensures StateOf(w, identity, x.runId, Some(a)) == NOT_OBSERVED <==>
              && x.exitCode == 0 && d.Complete() && Count(d.entered, r.OffsetOfNode(r.source)) > 0
              && Count(d.edges, (r.OffsetOfNode(r.source), r.OffsetOfNode(r.target))) == 0 && Calibrated(r)
  {
    hide Calibrated, Inapplicable, HasWitness, Keys, Lookup;
  }
}
