/**
 Bounded runtime receipts: the validator that rechecks a run from its retained
 binary, source and raw trace, and the runtime state derived from a run.
 Digests are constructors, so equal digests mean equal preimages.
 */
module RuntimeEvidence {
  import opened Prelude
  import opened TraceDecoder

  const PROVIDER := "bounded-appleclang-function-entry/1"
  const COVERAGE_SCHEMA := "runtime-coverage-receipt/1"

  type NodeId = string
  type Content = seq<string>

  datatype Digest = Sha256(content: Content)
  datatype InstrumentationId = InstrumentationId(config: string)
  datatype BuildId = BuildId(
    compiler: string, source: Digest, compileArgv: seq<string>, linkArgv: seq<string>, instrumentation: string)

  datatype Status = COMPLETE | PARTIAL

  datatype EndpointPayload = EndpointPayload(
    node: NodeId, binary: Digest, build: BuildId, sourceRevision: Digest, canonicalRevision: string,
    imageOffset: int, detail: string)
  datatype EndpointId = EndpointId(payload: EndpointPayload)
  datatype Endpoint = Endpoint(id: EndpointId, payload: EndpointPayload)
  datatype BridgeId = BridgeId(source: EndpointId, target: EndpointId, binary: Digest, canonicalRevision: string)

  /** The identity fields a run and its coverage receipt both carry. */
  datatype Identity = Identity(
    runId: string, binary: Digest, build: BuildId, instrumentation: InstrumentationId,
    canonicalRevision: string, sourceRevision: Digest, semantics: string, workload: string, window: Option<string>)

  datatype CoveragePayload = CoveragePayload(
    schema: string, identity: Identity, source: NodeId, target: NodeId, traceSha: Digest,
    integrity: Status, sourceEntered: bool, targetObserved: bool, calibration: Option<string>, status: Status)
  datatype CoverageId = CoverageId(payload: CoveragePayload)
  datatype Coverage = Coverage(id: CoverageId, payload: CoveragePayload)

  datatype Integrity = Integrity(status: Status, enters: int, exits: int, traceSha: Digest)
  datatype RelationCoverage = RelationCoverage(
    status: Status, kind: string, source: NodeId, target: NodeId, receipt: CoverageId)

  datatype Run = Run(
    identity: Identity, backend: string, binaryPath: string, sourcePath: string, declaredInput: Digest,
    config: string, compiler: string, compileArgv: seq<string>, linkArgv: seq<string>,
    command: seq<string>, traceFile: Option<string>, bridge: BridgeId, exitCode: int,
    integrity: Integrity, relation: RelationCoverage, scenarioExact: bool)

  datatype Edge = Edge(
    parentOffset: int, childOffset: int, parentExact: bool, childExact: bool, parent: NodeId, child: NodeId,
    parentReceipt: EndpointId, childReceipt: EndpointId, relationBridge: BridgeId, count: int)

  ghost predicate DistinctKeys(s: seq<(NodeId, Endpoint)>) {
    forall i, j :: 0 <= i < j < |s| ==> s[i].0 != s[j].0
  }

  /** A JSON object of endpoint receipts in its own order; keys of an object are distinct. */
  type EndpointMap = s: seq<(NodeId, Endpoint)> | DistinctKeys(s) witness []

  datatype Artifact = Artifact(
    run: Run, edges: seq<Edge>, bridge: EndpointMap, coverage: Coverage, tracePath: string)

  /** Files on disk, the stored run artifacts of a directory, the symbol reader and the number reader. */
  datatype World = World(
    files: map<string, Content>,
    parent: string -> string,
    runs: map<(string, string), Artifact>,
    symbols: Content -> Option<set<int>>,
    num: Numerals)

  datatype Reason =
    | Verified
    | UnsupportedProviderOrReceipt
    | CoverageReceiptDigestMismatch
    | SourceOrBinaryDigestMismatch
    | RunCommandOrInstrumentationMismatch
    | RunAndCoverageIdentityMismatch
    | RelationCoverageReceiptMismatch
    | EndpointBridgeDomainMismatch
    | EndpointBridgeReceiptMismatch
    | EndpointBridgeIdentityMismatch
    | RelationBridgeIdentityMismatch
    | RawTraceDigestMismatch
    | TraceIntegrityReceiptMismatch
    | EdgeEndpointBridgeMismatch
    | EdgeRowsDifferFromRawTrace
    | CoverageObservationMismatch
    | CalibrationInvalid(reason: Reason)
    | CalibrationDoesNotProveTarget
    | RuntimeCoverageCompletenessMismatch
    | UnavailableOrMalformed

  // ---------- endpoint maps ----------

  function Keys(bridge: seq<(NodeId, Endpoint)>): set<NodeId> {
    set k | 0 <= k < |bridge| :: bridge[k].0
  }

  function Lookup(bridge: seq<(NodeId, Endpoint)>, node: NodeId): (e: Option<Endpoint>)
    ensures e.Some? <==> node in Keys(bridge)
    ensures e.Some? ==> (node, e.value) in bridge
  {
    if bridge == [] then None
    else
      assert Keys(bridge) == {bridge[0].0} + Keys(bridge[1..]) by {
        assert forall k :: 1 <= k < |bridge| ==> bridge[k] == bridge[1..][k - 1];
        assert forall k :: 0 <= k < |bridge| - 1 ==> bridge[1..][k] == bridge[k + 1];
      }
      if bridge[0].0 == node then Some(bridge[0].1) else Lookup(bridge[1..], node)
  }

  /** The offset table: a later endpoint with the same offset overwrites an earlier one. */
  function OffsetTable(bridge: seq<(NodeId, Endpoint)>): map<int, NodeId> {
    if bridge == [] then map[]
    else
      var n := |bridge| - 1;
      OffsetTable(bridge[..n])[bridge[n].1.payload.imageOffset := bridge[n].0]
  }

  // ---------- the checks, in the order they are made ----------

  predicate CommandConsistent(a: Artifact) {
    var run, id := a.run, a.run.identity;
    && run.declaredInput == id.sourceRevision
    && InstrumentationId(run.config) == id.instrumentation
    && BuildId(run.compiler, id.sourceRevision, run.compileArgv, run.linkArgv, run.config) == id.build
    && run.command == [run.binaryPath, id.workload]
    && run.traceFile == Some(a.tracePath)
  }

  predicate RelationConsistent(a: Artifact) {
    var cov := a.coverage.payload;
    && a.run.relation.receipt == a.coverage.id
    && a.run.relation.status == cov.status
    && a.run.relation.source == cov.source
    && a.run.relation.target == cov.target
  }

  function EndpointCheck(entry: (NodeId, Endpoint), id: Identity): Reason {
    var p := entry.1.payload;
    if p.node != entry.0 || entry.1.id != EndpointId(p) then EndpointBridgeReceiptMismatch
    else if p.binary != id.binary || p.build != id.build || p.sourceRevision != id.sourceRevision
            || p.canonicalRevision != id.canonicalRevision then EndpointBridgeIdentityMismatch
    else Verified
  }

  function EndpointChecks(bridge: seq<(NodeId, Endpoint)>, id: Identity): (r: Reason)
    ensures r == Verified <==> forall k :: 0 <= k < |bridge| ==> EndpointCheck(bridge[k], id) == Verified
  {
    if bridge == [] then Verified
    else
      assert forall k :: 1 <= k < |bridge| ==> bridge[k] == bridge[1..][k - 1];
      var first := EndpointCheck(bridge[0], id);
      if first != Verified then first else EndpointChecks(bridge[1..], id)
  }

  function RelationBridge(
      bridge: seq<(NodeId, Endpoint)>, source: NodeId, target: NodeId, id: Identity): Option<BridgeId> {
    match (Lookup(bridge, source), Lookup(bridge, target))
    case (Some(s), Some(t)) => Some(BridgeId(s.id, t.id, id.binary, id.canonicalRevision))
    case _ => None
  }

  function HeaderCheck(w: World, a: Artifact): Reason {
    var run, cov := a.run, a.coverage.payload;
    if run.backend != PROVIDER || cov.schema != COVERAGE_SCHEMA then UnsupportedProviderOrReceipt
    else if a.coverage.id != CoverageId(cov) then CoverageReceiptDigestMismatch
    else if run.binaryPath !in w.files then UnavailableOrMalformed
    else if Sha256(w.files[run.binaryPath]) != run.identity.binary then SourceOrBinaryDigestMismatch
    else if run.sourcePath !in w.files then UnavailableOrMalformed
    else if Sha256(w.files[run.sourcePath]) != run.identity.sourceRevision then SourceOrBinaryDigestMismatch
    else if !CommandConsistent(a) then RunCommandOrInstrumentationMismatch
    else if cov.identity != run.identity then RunAndCoverageIdentityMismatch
    else if !RelationConsistent(a) then RelationCoverageReceiptMismatch
    else if Keys(a.bridge) != {cov.source, cov.target} then EndpointBridgeDomainMismatch
    else if EndpointChecks(a.bridge, run.identity) != Verified then EndpointChecks(a.bridge, run.identity)
    else if RelationBridge(a.bridge, cov.source, cov.target, run.identity) != Some(run.bridge) then
      RelationBridgeIdentityMismatch
    else if a.tracePath !in w.files then UnavailableOrMalformed
    else if Sha256(w.files[a.tracePath]) != cov.traceSha then RawTraceDigestMismatch
    else if w.symbols(w.files[run.binaryPath]).None? then UnavailableOrMalformed
    else Verified
  }

  /** The raw trace decoded against the binary's own symbol offsets. */
  function DecodedTrace(w: World, a: Artifact): Decoded
    requires HeaderCheck(w, a) == Verified
  {
    Decode(w.num, w.files[a.tracePath], w.symbols(w.files[a.run.binaryPath]).value)
  }

  function TraceIntegrity(a: Artifact, d: Decoded): Status {
    if a.run.exitCode == 0 && d.Complete() then COMPLETE else PARTIAL
  }

  predicate IntegrityConsistent(w: World, a: Artifact, d: Decoded)
    requires HeaderCheck(w, a) == Verified
  {
    var status := TraceIntegrity(a, d);
    && status == a.run.integrity.status
    && status == a.coverage.payload.integrity
    && Sha256(w.files[a.tracePath]) == a.run.integrity.traceSha
    && d.enters == a.run.integrity.enters
    && d.exits == a.run.integrity.exits
  }

  predicate EdgeBound(a: Artifact, offsets: map<int, NodeId>, e: Edge) {
    && e.parentExact && e.childExact
    && e.parentOffset in offsets && offsets[e.parentOffset] == e.parent
    && e.childOffset in offsets && offsets[e.childOffset] == e.child
    && (match (Lookup(a.bridge, e.parent), Lookup(a.bridge, e.child))
        case (Some(p), Some(c)) =>
          && e.parentReceipt == p.id && e.childReceipt == c.id
          && e.relationBridge == BridgeId(p.id, c.id, a.run.identity.binary, a.run.identity.canonicalRevision)
        case _ => false)
  }

  /** What the trace says of a pair, restricted to the two endpoints. */
  function ExpectedCount(d: Decoded, offsets: map<int, NodeId>, a: int, b: int): nat {
    if a in offsets && b in offsets then Count(d.edges, (a, b)) else 0
  }

  /** What the edge rows add up to for a pair. */
  function RowTotal(edges: seq<Edge>, a: int, b: int): int {
    if edges == [] then 0
    else
      var e := edges[|edges| - 1];
      RowTotal(edges[..|edges| - 1], a, b) + (if (e.parentOffset, e.childOffset) == (a, b) then e.count else 0)
  }

  ghost predicate RowsMatchTrace(a: Artifact, d: Decoded, offsets: map<int, NodeId>) {
    forall p, c :: RowTotal(a.edges, p, c) == ExpectedCount(d, offsets, p, c)
  }

  ghost function EdgeCheck(a: Artifact, d: Decoded, offsets: map<int, NodeId>): Reason {
    if exists k :: 0 <= k < |a.edges| && !EdgeBound(a, offsets, a.edges[k]) then EdgeEndpointBridgeMismatch
    else if !RowsMatchTrace(a, d, offsets) then EdgeRowsDifferFromRawTrace
    else Verified
  }

  predicate HasRow(a: Artifact, source: NodeId, target: NodeId) {
    exists k :: 0 <= k < |a.edges| && a.edges[k].parent == source && a.edges[k].child == target
  }

  predicate ProvesTarget(calibration: Artifact, a: Artifact, calibrationId: string) {
    && calibration.run.identity.runId == calibrationId
    && calibration.run.identity.binary == a.run.identity.binary
    && calibration.run.identity.canonicalRevision == a.run.identity.canonicalRevision
    && calibration.run.bridge == a.run.bridge
    && HasRow(calibration, a.coverage.payload.source, a.coverage.payload.target)
  }

  ghost function Verdict(w: World, a: Artifact, checkCalibration: bool): Reason
    decreases checkCalibration
  {
    if HeaderCheck(w, a) != Verified then HeaderCheck(w, a)
    else
      var d, offsets, cov := DecodedTrace(w, a), OffsetTable(a.bridge), a.coverage.payload;
      var so := Lookup(a.bridge, cov.source).value.payload.imageOffset;
      var to := Lookup(a.bridge, cov.target).value.payload.imageOffset;
      var observed := ExpectedCount(d, offsets, so, to) > 0;
      var sourceEntered := Count(d.entered, so) > 0;
      if !IntegrityConsistent(w, a, d) then TraceIntegrityReceiptMismatch
      else if EdgeCheck(a, d, offsets) != Verified then EdgeCheck(a, d, offsets)
      else if cov.targetObserved != observed || cov.sourceEntered != sourceEntered then CoverageObservationMismatch
      else
        var calibrated := CalibrationVerdict(w, a, checkCalibration);
        if calibrated.Some? && calibrated.value != Verified then calibrated.value
        else if (cov.status == COMPLETE) !=
                (TraceIntegrity(a, d) == COMPLETE && sourceEntered && (observed || calibrated.Some?)) then
          RuntimeCoverageCompletenessMismatch
        else Verified
  }

  /** None when no calibration is consulted; Some(Verified) when it proves the target. */
  ghost function CalibrationVerdict(w: World, a: Artifact, checkCalibration: bool): Option<Reason>
    requires HeaderCheck(w, a) == Verified
    decreases checkCalibration, 0
  {
    var id := a.coverage.payload.calibration;
    if !checkCalibration || id.None? || id.value == "" then None
    else
      var key := (w.parent(a.tracePath), id.value);
      if key !in w.runs then Some(UnavailableOrMalformed)
      else
        var verdict := Verdict(w, w.runs[key], false);
        if verdict != Verified then Some(CalibrationInvalid(verdict))
        else if !ProvesTarget(w.runs[key], a, id.value) then Some(CalibrationDoesNotProveTarget)
        else Some(Verified)
  }

  // ---------- what a verified artifact is ----------

  ghost predicate FileIs(w: World, path: string, digest: Digest) {
    path in w.files && Sha256(w.files[path]) == digest
  }

  /** The command and the instrumentation are those the identity was made of, and the run wrote this trace. */
  ghost predicate RanAsIdentified(a: Artifact) {
    var run, id := a.run, a.run.identity;
    && run.declaredInput == id.sourceRevision
    && id.instrumentation == InstrumentationId(run.config)
    && id.build == BuildId(run.compiler, run.declaredInput, run.compileArgv, run.linkArgv, run.config)
    && |run.command| == 2 && run.command[0] == run.binaryPath && run.command[1] == id.workload
    && run.traceFile.Some? && run.traceFile.value == a.tracePath
  }

  /** The run and its coverage receipt speak of one relation and one status. */
  ghost predicate SameRelation(a: Artifact) {
    var rel, cov := a.run.relation, a.coverage;
    rel.receipt == cov.id && (rel.source, rel.target) == (cov.payload.source, cov.payload.target)
    && rel.status == cov.payload.status
  }

  /** The endpoint is filed under its node and bound to this run's binary, build, source and revision. */
  ghost predicate BoundEndpoint(run: Run, node: NodeId, e: Endpoint) {
    && e.id == EndpointId(e.payload) && e.payload.node == node
    && (e.payload.binary, e.payload.build, e.payload.sourceRevision, e.payload.canonicalRevision)
       == (run.identity.binary, run.identity.build, run.identity.sourceRevision, run.identity.canonicalRevision)
  }

  /** The two endpoints of the relation and no others; together they are the relation's bridge. */
  ghost predicate BridgeHolds(a: Artifact) {
    var cov := a.coverage.payload;
    && (forall k :: 0 <= k < |a.bridge| ==>
          a.bridge[k].0 in {cov.source, cov.target} && BoundEndpoint(a.run, a.bridge[k].0, a.bridge[k].1))
    && exists i, j :: 0 <= i < |a.bridge| && 0 <= j < |a.bridge|
         && a.bridge[i].0 == cov.source && a.bridge[j].0 == cov.target
         && a.run.bridge == BridgeId(a.bridge[i].1.id, a.bridge[j].1.id, a.run.identity.binary,
                                     a.run.identity.canonicalRevision)
  }

  /** Everything that can be said before the trace is read. */
  ghost predicate HeaderHolds(w: World, a: Artifact) {
    var run, cov := a.run, a.coverage;
    && run.backend == PROVIDER && cov.payload.schema == COVERAGE_SCHEMA && cov.id == CoverageId(cov.payload)
    && FileIs(w, run.binaryPath, run.identity.binary) && FileIs(w, run.sourcePath, run.identity.sourceRevision)
    && RanAsIdentified(a) && cov.payload.identity == run.identity && SameRelation(a)
    && BridgeHolds(a) && FileIs(w, a.tracePath, cov.payload.traceSha)
    && w.symbols(w.files[run.binaryPath]).Some?
  }

  lemma {:induction false} KeysAre(bridge: EndpointMap, s: NodeId, t: NodeId)
    ensures Keys(bridge) == {s, t} <==>
      && (forall k :: 0 <= k < |bridge| ==> bridge[k].0 in {s, t})
      && (exists i :: 0 <= i < |bridge| && bridge[i].0 == s) && exists j :: 0 <= j < |bridge| && bridge[j].0 == t
  {
    if Keys(bridge) == {s, t} {
      assert s in Keys(bridge) && t in Keys(bridge);
      forall k | 0 <= k < |bridge| ensures bridge[k].0 in {s, t} {
        assert bridge[k].0 in Keys(bridge);
      }
    }
  }

  lemma {:induction false} LookupIs(bridge: EndpointMap, i: nat)
    requires i < |bridge|
    ensures Lookup(bridge, bridge[i].0) == Some(bridge[i].1)
  {
    assert bridge[i].0 in Keys(bridge);
    var e := Lookup(bridge, bridge[i].0).value;
    var k :| 0 <= k < |bridge| && bridge[k] == (bridge[i].0, e);
  }

  lemma {:induction false} BridgeMeaning(a: Artifact)
    ensures BridgeHolds(a) <==>
      && Keys(a.bridge) == {a.coverage.payload.source, a.coverage.payload.target}
      && EndpointChecks(a.bridge, a.run.identity) == Verified
      && RelationBridge(a.bridge, a.coverage.payload.source, a.coverage.payload.target, a.run.identity)
         == Some(a.run.bridge)
  {
    var cov := a.coverage.payload;
    KeysAre(a.bridge, cov.source, cov.target);
    hide Keys, Lookup, EndpointChecks;
    forall k | 0 <= k < |a.bridge| ensures Lookup(a.bridge, a.bridge[k].0) == Some(a.bridge[k].1) {
      LookupIs(a.bridge, k);
    }
    forall k | 0 <= k < |a.bridge|
      ensures BoundEndpoint(a.run, a.bridge[k].0, a.bridge[k].1) <==>
              EndpointCheck(a.bridge[k], a.run.identity) == Verified
    {
    }
    hide EndpointCheck, BoundEndpoint;
  }

  lemma {:induction false} HeaderMeaning(w: World, a: Artifact)
    ensures HeaderCheck(w, a) == Verified <==> HeaderHolds(w, a)
  {
    BridgeMeaning(a);
    hide BridgeHolds, EndpointChecks, RelationBridge, Keys, Lookup;
    assert |a.run.command| == 2 ==>
      a.run.command == [a.run.command[0], a.run.command[1]];
  }

  /** At this offset the bridge has this node and receipt, no later endpoint taking the offset over. */
  ghost predicate StandsAt(bridge: EndpointMap, offset: int, node: NodeId, receipt: EndpointId) {
    exists k :: LastAt(bridge, offset, k) && bridge[k].0 == node && bridge[k].1.id == receipt
  }

  ghost predicate LastAt(bridge: EndpointMap, offset: int, k: int) {
    && 0 <= k < |bridge| && bridge[k].1.payload.imageOffset == offset
    && forall m :: k < m < |bridge| ==> bridge[m].1.payload.imageOffset != offset
  }

  lemma {:induction false} TableMeaning(bridge: EndpointMap, offset: int)
    ensures offset in OffsetTable(bridge) <==> exists k :: LastAt(bridge, offset, k)
    ensures forall k :: LastAt(bridge, offset, k) ==>
      offset in OffsetTable(bridge) && OffsetTable(bridge)[offset] == bridge[k].0
    decreases |bridge|
  {
    if bridge != [] {
      var n := |bridge| - 1;
      TableMeaning(bridge[..n], offset);
      if bridge[n].1.payload.imageOffset == offset {
        assert LastAt(bridge, offset, n);
      } else {
        forall k ensures LastAt(bridge, offset, k) <==> LastAt(bridge[..n], offset, k) {
          if LastAt(bridge, offset, k) {
            forall m | k < m < n ensures bridge[..n][m].1.payload.imageOffset != offset {
              assert bridge[m].1.payload.imageOffset != offset;
            }
          }
        }
      }
    }
  }

  /** An edge row names, exactly, the endpoints that stand at its offsets, and their bridge. */
  ghost predicate RowHolds(a: Artifact, e: Edge) {
    && e.parentExact && e.childExact
    && StandsAt(a.bridge, e.parentOffset, e.parent, e.parentReceipt)
    && StandsAt(a.bridge, e.childOffset, e.child, e.childReceipt)
    && e.relationBridge ==
       BridgeId(e.parentReceipt, e.childReceipt, a.run.identity.binary, a.run.identity.canonicalRevision)
  }

  lemma {:induction false} StandsMeaning(bridge: EndpointMap, offset: int, node: NodeId, receipt: EndpointId)
    ensures StandsAt(bridge, offset, node, receipt) <==>
      && offset in OffsetTable(bridge) && OffsetTable(bridge)[offset] == node
      && node in Keys(bridge) && Lookup(bridge, node).value.id == receipt
  {
    TableMeaning(bridge, offset);
    hide OffsetTable, Lookup;
    forall k | 0 <= k < |bridge|
      ensures bridge[k].0 in Keys(bridge) && Lookup(bridge, bridge[k].0) == Some(bridge[k].1)
    {
      LookupIs(bridge, k);
    }
    hide Keys, LastAt;
    if offset in OffsetTable(bridge) {
      var k :| LastAt(bridge, offset, k);
      LastIsAnIndex(bridge, offset, k);
    }
    forall k | LastAt(bridge, offset, k) ensures 0 <= k < |bridge| {
      LastIsAnIndex(bridge, offset, k);
    }
  }

  lemma {:induction false} LastIsAnIndex(bridge: EndpointMap, offset: int, k: int)
    requires LastAt(bridge, offset, k)
    ensures 0 <= k < |bridge|
  {
  }

  lemma {:induction false} RowMeaning(a: Artifact, e: Edge)
    ensures EdgeBound(a, OffsetTable(a.bridge), e) <==> RowHolds(a, e)
  {
    StandsMeaning(a.bridge, e.parentOffset, e.parent, e.parentReceipt);
    StandsMeaning(a.bridge, e.childOffset, e.child, e.childReceipt);
    hide OffsetTable, StandsAt, Keys;
  }

  /** How often the trace has the pair, both being endpoints. */
  ghost function TraceHas(a: Artifact, d: Decoded, p: int, c: int): nat {
    if (exists k :: LastAt(a.bridge, p, k)) && exists k :: LastAt(a.bridge, c, k) then Count(d.edges, (p, c)) else 0
  }

  /** Everything the trace decides: integrity, the rows, and what the receipt says was seen. */
  ghost predicate TraceHolds(a: Artifact, d: Decoded, traceSha: Digest) {
    var run, cov := a.run, a.coverage.payload;
    && run.integrity == Integrity(if run.exitCode == 0 && d.Complete() then COMPLETE else PARTIAL,
                                  d.enters, d.exits, traceSha)
    && cov.integrity == run.integrity.status
    && (forall k :: 0 <= k < |a.edges| ==> RowHolds(a, a.edges[k]))
    && (forall p, c :: RowTotal(a.edges, p, c) == TraceHas(a, d, p, c))
    && {cov.source, cov.target} <= Keys(a.bridge)
    && var so, to := OffsetOf(a, cov.source), OffsetOf(a, cov.target);
    && (cov.sourceEntered <==> Count(d.entered, so) > 0)
    && (cov.targetObserved <==> TraceHas(a, d, so, to) > 0)
  }

  /** The calibration is this very run, of the same binary and bridge, and has a row for the pair. */
  ghost predicate Proves(c: Artifact, a: Artifact, name: string) {
    && (c.run.identity.runId, c.run.identity.binary, c.run.identity.canonicalRevision)
       == (name, a.run.identity.binary, a.run.identity.canonicalRevision)
    && c.run.bridge == a.run.bridge
    && exists k :: 0 <= k < |c.edges|
         && (c.edges[k].parent, c.edges[k].child) == (a.coverage.payload.source, a.coverage.payload.target)
  }

  ghost predicate NamesCalibration(a: Artifact) {
    a.coverage.payload.calibration.Some? && a.coverage.payload.calibration.value != ""
  }

  /** What the validator's "verified" stands for. */
  ghost predicate ArtifactHolds(w: World, a: Artifact, checkCalibration: bool)
    decreases checkCalibration
  {
    && HeaderHolds(w, a)
    && var cov := a.coverage.payload;
    var d := Decode(w.num, w.files[a.tracePath], w.symbols(w.files[a.run.binaryPath]).value);
    && TraceHolds(a, d, Sha256(w.files[a.tracePath]))
    && (checkCalibration && NamesCalibration(a) ==>
          && (w.parent(a.tracePath), cov.calibration.value) in w.runs
          && ArtifactHolds(w, w.runs[(w.parent(a.tracePath), cov.calibration.value)], false)
          && Proves(w.runs[(w.parent(a.tracePath), cov.calibration.value)], a, cov.calibration.value))
    && (cov.status == COMPLETE <==>
          && a.run.integrity.status == COMPLETE && cov.sourceEntered
          && (cov.targetObserved || (checkCalibration && NamesCalibration(a))))
  }

  lemma {:induction false} RowsMeaning(a: Artifact, d: Decoded)
    ensures EdgeCheck(a, d, OffsetTable(a.bridge)) == Verified <==>
      && (forall k :: 0 <= k < |a.edges| ==> RowHolds(a, a.edges[k]))
      && forall p, c :: RowTotal(a.edges, p, c) == TraceHas(a, d, p, c)
  {
    forall e ensures EdgeBound(a, OffsetTable(a.bridge), e) <==> RowHolds(a, e) { RowMeaning(a, e); }
    forall p, c ensures ExpectedCount(d, OffsetTable(a.bridge), p, c) == TraceHas(a, d, p, c) {
      CountMeaning(a, d, p, c);
    }
    hide EdgeBound, RowHolds, OffsetTable, ExpectedCount, TraceHas, RowTotal;
  }

  lemma {:induction false} CountMeaning(a: Artifact, d: Decoded, p: int, c: int)
    ensures ExpectedCount(d, OffsetTable(a.bridge), p, c) == TraceHas(a, d, p, c)
  {
    TableMeaning(a.bridge, p);
    TableMeaning(a.bridge, c);
    hide OffsetTable, LastAt, Count;
  }

  lemma {:induction false} TraceMeaning(w: World, a: Artifact)
    requires HeaderCheck(w, a) == Verified
    ensures var d, cov := DecodedTrace(w, a), a.coverage.payload;
      && {cov.source, cov.target} <= Keys(a.bridge)
      && var so, to := OffsetOf(a, cov.source), OffsetOf(a, cov.target);
      TraceHolds(a, d, Sha256(w.files[a.tracePath])) <==>
        && IntegrityConsistent(w, a, d) && EdgeCheck(a, d, OffsetTable(a.bridge)) == Verified
        && cov.targetObserved == (ExpectedCount(d, OffsetTable(a.bridge), so, to) > 0)
        && cov.sourceEntered == (Count(d.entered, so) > 0)
  {
    var d, cov := DecodedTrace(w, a), a.coverage.payload;
    EndpointsAreThere(w, a);
    RowsMeaning(a, d);
    CountMeaning(a, d, OffsetOf(a, cov.source), OffsetOf(a, cov.target));
    hide HeaderCheck, EdgeCheck, RowHolds, OffsetTable, ExpectedCount, TraceHas, Keys, Decode, RowTotal, Count,
      OffsetOf;
  }

  lemma {:induction false} EndpointsAreThere(w: World, a: Artifact)
    requires HeaderCheck(w, a) == Verified
    ensures {a.coverage.payload.source, a.coverage.payload.target} <= Keys(a.bridge)
  {
  }

  lemma {:induction false} ProvesMeaning(c: Artifact, a: Artifact, name: string)
    ensures ProvesTarget(c, a, name) <==> Proves(c, a, name)
  {
  }

  lemma {:induction false} CalibrationMeaning(w: World, a: Artifact, checkCalibration: bool)
    requires HeaderCheck(w, a) == Verified
    ensures checkCalibration && NamesCalibration(a) ==>
      CalibrationVerdict(w, a, checkCalibration).Some?
      && var key := (w.parent(a.tracePath), a.coverage.payload.calibration.value);
      (CalibrationVerdict(w, a, checkCalibration) == Some(Verified) <==>
         && key in w.runs && Verdict(w, w.runs[key], false) == Verified
         && Proves(w.runs[key], a, a.coverage.payload.calibration.value))
    ensures !(checkCalibration && NamesCalibration(a)) ==> CalibrationVerdict(w, a, checkCalibration).None?
  {
    hide HeaderCheck, Verdict, Proves, ProvesTarget;
    if checkCalibration && NamesCalibration(a) {
      var key := (w.parent(a.tracePath), a.coverage.payload.calibration.value);
      if key in w.runs {
        ProvesMeaning(w.runs[key], a, a.coverage.payload.calibration.value);
      }
    }
  }

  lemma {:induction false} VerdictParts(w: World, a: Artifact, checkCalibration: bool)
    requires HeaderCheck(w, a) == Verified
    ensures var d, cov := DecodedTrace(w, a), a.coverage.payload;
      var calibrated := CalibrationVerdict(w, a, checkCalibration);
      && {cov.source, cov.target} <= Keys(a.bridge)
      && var so, to := OffsetOf(a, cov.source), OffsetOf(a, cov.target);
      Verdict(w, a, checkCalibration) == Verified <==>
        && IntegrityConsistent(w, a, d) && EdgeCheck(a, d, OffsetTable(a.bridge)) == Verified
        && cov.targetObserved == (ExpectedCount(d, OffsetTable(a.bridge), so, to) > 0)
        && cov.sourceEntered == (Count(d.entered, so) > 0)
        && calibrated in {None, Some(Verified)}
        && (cov.status == COMPLETE <==>
              TraceIntegrity(a, d) == COMPLETE && cov.sourceEntered && (cov.targetObserved || calibrated.Some?))
  {
    EndpointsAreThere(w, a);
    hide HeaderCheck, EdgeCheck, CalibrationVerdict, IntegrityConsistent, TraceIntegrity, Decode, OffsetTable,
      ExpectedCount, Keys, Count;
  }

  /** The validator says "verified" exactly of an artifact that holds in every respect. */
  lemma {:induction false} VerifiedIff(w: World, a: Artifact, checkCalibration: bool)
    ensures Verdict(w, a, checkCalibration) == Verified <==> ArtifactHolds(w, a, checkCalibration)
    decreases checkCalibration
  {
    HeaderMeaning(w, a);
    if HeaderCheck(w, a) == Verified {
      TraceMeaning(w, a);
      CalibrationMeaning(w, a, checkCalibration);
      VerdictParts(w, a, checkCalibration);
      var key := (w.parent(a.tracePath), if NamesCalibration(a) then a.coverage.payload.calibration.value else "");
      if checkCalibration && NamesCalibration(a) && key in w.runs {
        VerifiedIff(w, w.runs[key], false);
      }
      IntegrityIsStatus(w, a);
      hide HeaderCheck, HeaderHolds, EdgeCheck, CalibrationVerdict, Decode, OffsetTable, ExpectedCount, Keys, Lookup,
        Proves, Verdict, TraceHolds, IntegrityConsistent, TraceIntegrity, NamesCalibration, Count;
    } else {
      hide HeaderCheck, HeaderHolds;
    }
  }

  lemma {:induction false} IntegrityIsStatus(w: World, a: Artifact)
    requires HeaderCheck(w, a) == Verified
    ensures IntegrityConsistent(w, a, DecodedTrace(w, a)) ==>
              TraceIntegrity(a, DecodedTrace(w, a)) == a.run.integrity.status
  {
    hide HeaderCheck, Decode;
  }

  // ---------- the validator with its loops ----------

  method BuildOffsets(bridge: EndpointMap) returns (offsets: map<int, NodeId>)
    ensures offsets == OffsetTable(bridge)
  {
    offsets := map[];
    for i := 0 to |bridge|
      invariant offsets == OffsetTable(bridge[..i])
    {
      offsets := offsets[bridge[i].1.payload.imageOffset := bridge[i].0];
      assert bridge[..i + 1][..i] == bridge[..i];
    }
    assert bridge[..|bridge|] == bridge;
  }

  method CheckEndpoints(bridge: EndpointMap, id: Identity) returns (r: Reason)
    ensures r == EndpointChecks(bridge, id)
  {
    assert bridge[0..] == bridge;
    for i := 0 to |bridge|
      invariant EndpointChecks(bridge, id) == EndpointChecks(bridge[i..], id)
    {
      assert bridge[i..][0] == bridge[i] && bridge[i..][1..] == bridge[i + 1..];
      r := EndpointCheck(bridge[i], id);
      if r != Verified {
        return;
      }
    }
    r := Verified;
  }

  function Total(counter: map<(int, int), int>, a: int, b: int): int {
    if (a, b) in counter then counter[(a, b)] else 0
  }

  /** Everything that is checked before the raw trace is decoded. */
  method CheckHeader(w: World, a: Artifact) returns (r: Reason)
    ensures r == HeaderCheck(w, a)
  {
    var run, cov := a.run, a.coverage.payload;
    if run.backend != PROVIDER || cov.schema != COVERAGE_SCHEMA { return UnsupportedProviderOrReceipt; }
    if a.coverage.id != CoverageId(cov) { return CoverageReceiptDigestMismatch; }
    if run.binaryPath !in w.files { return UnavailableOrMalformed; }
    if Sha256(w.files[run.binaryPath]) != run.identity.binary { return SourceOrBinaryDigestMismatch; }
    if run.sourcePath !in w.files { return UnavailableOrMalformed; }
    if Sha256(w.files[run.sourcePath]) != run.identity.sourceRevision { return SourceOrBinaryDigestMismatch; }
    if !CommandConsistent(a) { return RunCommandOrInstrumentationMismatch; }
    if cov.identity != run.identity { return RunAndCoverageIdentityMismatch; }
    if !RelationConsistent(a) { return RelationCoverageReceiptMismatch; }
    if Keys(a.bridge) != {cov.source, cov.target} { return EndpointBridgeDomainMismatch; }
    r := CheckEndpoints(a.bridge, run.identity);
    if r != Verified { return; }
    if RelationBridge(a.bridge, cov.source, cov.target, run.identity) != Some(run.bridge) {
      return RelationBridgeIdentityMismatch;
    }
    if a.tracePath !in w.files { return UnavailableOrMalformed; }
    if Sha256(w.files[a.tracePath]) != cov.traceSha { return RawTraceDigestMismatch; }
    if w.symbols(w.files[run.binaryPath]).None? { return UnavailableOrMalformed; }
    r := Verified;
  }

  method ExpectedEdges(d: Decoded, offsets: map<int, NodeId>) returns (expected: map<(int, int), int>)
    ensures forall a, b :: Total(expected, a, b) == ExpectedCount(d, offsets, a, b)
  {
    expected := map[];
    var todo := d.edges.Keys;
    while todo != {}
      invariant todo <= d.edges.Keys
      invariant expected.Keys <= d.edges.Keys - todo
      invariant forall a, b :: (a, b) !in todo ==> Total(expected, a, b) == ExpectedCount(d, offsets, a, b)
      decreases todo
    {
      var p :| p in todo;
      todo := todo - {p};
      if p.0 in offsets && p.1 in offsets {
        expected := expected[p := d.edges[p]];
      }
    }
  }

  lemma {:induction false} RowTotalNext(edges: seq<Edge>, i: nat, a: int, b: int)
    requires i < |edges|
    ensures RowTotal(edges[..i + 1], a, b) ==
            RowTotal(edges[..i], a, b)
            + (if (edges[i].parentOffset, edges[i].childOffset) == (a, b) then edges[i].count else 0)
  {
    assert edges[..i + 1][..i] == edges[..i];
  }

  /** Adds up the edge rows; None as soon as one row is not bound to the endpoint receipts. */
  method ActualEdges(a: Artifact, offsets: map<int, NodeId>) returns (actual: Option<map<(int, int), int>>)
    ensures actual.None? <==> exists k :: 0 <= k < |a.edges| && !EdgeBound(a, offsets, a.edges[k])
    ensures actual.Some? ==> forall p, c :: Total(actual.value, p, c) == RowTotal(a.edges, p, c)
  {
    var edges := a.edges;
    var rows: map<(int, int), int> := map[];
    for i := 0 to |edges|
      invariant forall k :: 0 <= k < i ==> EdgeBound(a, offsets, edges[k])
      invariant forall p, c :: Total(rows, p, c) == RowTotal(edges[..i], p, c)
    {
      if !EdgeBound(a, offsets, edges[i]) {
        return None;
      }
      ghost var before := rows;
      var p, c := edges[i].parentOffset, edges[i].childOffset;
      rows := rows[(p, c) := Total(rows, p, c) + edges[i].count];
      forall x, y ensures Total(rows, x, y) == RowTotal(edges[..i + 1], x, y) {
        RowTotalNext(edges, i, x, y);
        assert Total(before, x, y) == RowTotal(edges[..i], x, y);
      }
    }
    assert edges[..|edges|] == edges;
    actual := Some(rows);
  }

  /** The two counters compared as Python compares Counters: a missing key is zero. */
  method CompareEdges(a: Artifact, d: Decoded, offsets: map<int, NodeId>) returns (r: Reason)
    ensures r == EdgeCheck(a, d, offsets)
  {
    var expected := ExpectedEdges(d, offsets);
    var actual := ActualEdges(a, offsets);
    if actual.None? {
      return EdgeEndpointBridgeMismatch;
    }
    var todo := expected.Keys + actual.value.Keys;
    while todo != {}
      invariant forall x, y :: (x, y) in expected.Keys + actual.value.Keys && (x, y) !in todo ==>
                  Total(expected, x, y) == Total(actual.value, x, y)
      decreases todo
    {
      var p :| p in todo;
      todo := todo - {p};
      if Total(expected, p.0, p.1) != Total(actual.value, p.0, p.1) {
        return EdgeRowsDifferFromRawTrace;
      }
    }
    assert forall x, y :: Total(expected, x, y) == Total(actual.value, x, y);
    r := Verified;
  }

  method Calibrate(w: World, a: Artifact, checkCalibration: bool) returns (r: Option<Reason>)
    requires HeaderCheck(w, a) == Verified
    ensures r == CalibrationVerdict(w, a, checkCalibration)
    decreases checkCalibration, 0
  {
    var id := a.coverage.payload.calibration;
    if id.None? || id.value == "" || !checkCalibration {
      return None;
    }
    var key := (w.parent(a.tracePath), id.value);
    if key !in w.runs {
      return Some(UnavailableOrMalformed);
    }
    var verdict := ValidateBoundedArtifact(w, w.runs[key], false);
    if verdict != Verified {
      return Some(CalibrationInvalid(verdict));
    }
    if !ProvesTarget(w.runs[key], a, id.value) {
      return Some(CalibrationDoesNotProveTarget);
    }
    r := Some(Verified);
  }

  method ValidateBoundedArtifact(w: World, a: Artifact, checkCalibration: bool) returns (r: Reason)
    ensures r == Verdict(w, a, checkCalibration)
    ensures r == Verified <==> ArtifactHolds(w, a, checkCalibration)
    decreases checkCalibration
  {
    VerifiedIff(w, a, checkCalibration);
    hide ArtifactHolds;
    r := CheckHeader(w, a);
    if r != Verified {
      return;
    }
    var cov := a.coverage.payload;
    var d := DecodeBoundedTrace(w.num, w.files[a.tracePath], w.symbols(w.files[a.run.binaryPath]).value);
    if !IntegrityConsistent(w, a, d) {
      return TraceIntegrityReceiptMismatch;
    }
    var offsets := BuildOffsets(a.bridge);
    r := CompareEdges(a, d, offsets);
    if r != Verified {
      return;
    }
    var so := Lookup(a.bridge, cov.source).value.payload.imageOffset;
    var to := Lookup(a.bridge, cov.target).value.payload.imageOffset;
    var observed := ExpectedCount(d, offsets, so, to) > 0;
    var sourceEntered := Count(d.entered, so) > 0;
    if cov.targetObserved != observed || cov.sourceEntered != sourceEntered {
      return CoverageObservationMismatch;
    }
    var calibration := Calibrate(w, a, checkCalibration);
    if calibration.Some? && calibration.value != Verified {
      return calibration.value;
    }
    var complete := TraceIntegrity(a, d) == COMPLETE && sourceEntered && (observed || calibration.Some?);
    if (cov.status == COMPLETE) != complete {
      return RuntimeCoverageCompletenessMismatch;
    }
    r := Verified;
  }

  // ---------- the runtime state of a relation ----------

  datatype Scope = Scope(
    sourceRevision: Option<Digest>, binary: Option<Digest>, build: Option<BuildId>, semantics: string,
    bridge: Option<BridgeId>, instrumentation: Option<InstrumentationId>, provider: Option<string>)

  datatype RelationIdentity = RelationIdentity(
    kind: string, source: NodeId, target: NodeId, canonicalRevision: string, scope: Scope)

  datatype RuntimeState = UNMEASURED | OBSERVED | NOT_OBSERVED

  datatype Ref = CoverageRef(receipt: CoverageId) | EdgeRef(runId: string, index: nat)

  datatype Limitation =
    | KeyMissingOrMismatch(key: string)
    | ScenarioBindingNotExact
    | TraceWindowUnavailable
    | ProviderOrWorkloadUnavailable
    | RunIdentityMismatch
    | ArtifactRejected(reason: Reason)
    | TraceIntegrityPartial
    | BoundedWorkloadAndWindowOnly
    | NotAStaticClaim
    | RelationTraceCoverageNotComplete

  datatype RuntimeResult = RuntimeResult(state: RuntimeState, refs: seq<Ref>, limitations: seq<Limitation>)

  function ScopeReason(identity: RelationIdentity, run: Run): Option<Limitation> {
    var id, scope := run.identity, identity.scope;
    if identity.canonicalRevision == "" || id.canonicalRevision != identity.canonicalRevision then
      Some(KeyMissingOrMismatch("evidence_revision"))
    else if scope.sourceRevision != Some(id.sourceRevision) then Some(KeyMissingOrMismatch("repo_revision"))
    else if scope.binary != Some(id.binary) then Some(KeyMissingOrMismatch("binary_sha256"))
    else if scope.build != Some(id.build) then Some(KeyMissingOrMismatch("build_identity"))
    else if scope.semantics == "" || id.semantics != scope.semantics then
      Some(KeyMissingOrMismatch("relation_semantics"))
    else if scope.bridge.Some? && scope.bridge.value != run.bridge then
      Some(KeyMissingOrMismatch("bridge_receipt_id"))
    else if scope.instrumentation.Some? && scope.instrumentation.value != id.instrumentation then
      Some(KeyMissingOrMismatch("instrumentation_identity"))
    else if scope.provider.Some? && scope.provider.value != run.backend then
      Some(KeyMissingOrMismatch("trace_backend"))
    else if !run.scenarioExact then Some(ScenarioBindingNotExact)
    else if id.window.None? then Some(TraceWindowUnavailable)
    else if run.backend == "" || id.workload == "" then Some(ProviderOrWorkloadUnavailable)
    else None
  }

  predicate Witnesses(identity: RelationIdentity, e: Edge) {
    && e.parentExact && e.childExact
    && e.parent == identity.source && e.child == identity.target
    && (identity.scope.bridge.None? || identity.scope.bridge.value == e.relationBridge)
  }

  function WitnessRefs(identity: RelationIdentity, runId: string, edges: seq<Edge>): seq<Ref> {
    if edges == [] then []
    else
      var n := |edges| - 1;
      WitnessRefs(identity, runId, edges[..n]) + (if Witnesses(identity, edges[n]) then [EdgeRef(runId, n)] else [])
  }

  predicate CoversRelation(identity: RelationIdentity, run: Run) {
    && run.integrity.status == COMPLETE
    && run.relation.status == COMPLETE
    && run.relation.kind == identity.kind
    && run.relation.source == identity.source
    && run.relation.target == identity.target
  }

  /** Why the run is not looked at for this relation at all. */
  ghost function Inapplicable(
      w: World, identity: RelationIdentity, runId: string, artifact: Option<Artifact>): Option<Limitation> {
    if artifact.None? then Some(KeyMissingOrMismatch("evidence_revision"))
    else
      var a := artifact.value;
      if ScopeReason(identity, a.run).Some? then ScopeReason(identity, a.run)
      else if a.run.identity.runId != runId then Some(RunIdentityMismatch)
      else if a.run.backend == PROVIDER && Verdict(w, a, true) != Verified then
        Some(ArtifactRejected(Verdict(w, a, true)))
      else None
  }

  ghost function StateOf(
      w: World, identity: RelationIdentity, runId: string, artifact: Option<Artifact>): RuntimeState {
    if Inapplicable(w, identity, runId, artifact).Some? then UNMEASURED
    else if HasWitness(identity, artifact.value.edges) then OBSERVED
    else if CoversRelation(identity, artifact.value.run) then NOT_OBSERVED
    else UNMEASURED
  }

  predicate HasWitness(identity: RelationIdentity, edges: seq<Edge>) {
    exists k :: 0 <= k < |edges| && Witnesses(identity, edges[k])
  }

  function LimitationsOf(state: RuntimeState, run: Run): seq<Limitation> {
    match state
    case OBSERVED => if run.integrity.status == COMPLETE then [] else [TraceIntegrityPartial]
    case NOT_OBSERVED => [BoundedWorkloadAndWindowOnly, NotAStaticClaim]
    case UNMEASURED => [RelationTraceCoverageNotComplete]
  }

  /** What the relation asks of a run, one requirement for each limitation that names it. */
  ghost predicate Breaks(identity: RelationIdentity, run: Run, why: Limitation) {
    var id, scope := run.identity, identity.scope;
    || (why == KeyMissingOrMismatch("evidence_revision")
        && (identity.canonicalRevision == "" || id.canonicalRevision != identity.canonicalRevision))
    || (why == KeyMissingOrMismatch("repo_revision") && scope.sourceRevision != Some(id.sourceRevision))
    || (why == KeyMissingOrMismatch("binary_sha256") && scope.binary != Some(id.binary))
    || (why == KeyMissingOrMismatch("build_identity") && scope.build != Some(id.build))
    || (why == KeyMissingOrMismatch("relation_semantics") && (scope.semantics == "" || scope.semantics != id.semantics))
    || (why == KeyMissingOrMismatch("bridge_receipt_id") && scope.bridge !in {None, Some(run.bridge)})
    || (why == KeyMissingOrMismatch("instrumentation_identity")
        && scope.instrumentation !in {None, Some(id.instrumentation)})
    || (why == KeyMissingOrMismatch("trace_backend") && scope.provider !in {None, Some(run.backend)})
    || (why == ScenarioBindingNotExact && !run.scenarioExact)
    || (why == TraceWindowUnavailable && id.window.None?)
    || (why == ProviderOrWorkloadUnavailable && (run.backend == "" || id.workload == ""))
  }

  /** The run was made at the revision, of the source, binary and build, and in the scope that the relation names. */
  ghost predicate InScope(identity: RelationIdentity, run: Run) {
    var id, scope := run.identity, identity.scope;
    && identity.canonicalRevision == id.canonicalRevision != ""
    && scope.sourceRevision == Some(id.sourceRevision)
    && scope.binary == Some(id.binary) && scope.build == Some(id.build)
    && scope.semantics == id.semantics != ""
    && (scope.bridge.Some? ==> scope.bridge == Some(run.bridge))
    && (scope.instrumentation.Some? ==> scope.instrumentation == Some(id.instrumentation))
    && (scope.provider.Some? ==> scope.provider == Some(run.backend))
    && run.scenarioExact && id.window.Some? && run.backend != "" && id.workload != ""
  }

  /** The scope check passes exactly in scope, and what it complains of is so. */
  lemma {:induction false} ScopeReasonMeaning(identity: RelationIdentity, run: Run)
    ensures ScopeReason(identity, run).None? <==> InScope(identity, run)
    ensures ScopeReason(identity, run).Some? ==> Breaks(identity, run, ScopeReason(identity, run).value)
    ensures InScope(identity, run) <==> forall why :: !Breaks(identity, run, why)
  {
    var reason := ScopeReason(identity, run);
    if reason.Some? {
      assert Breaks(identity, run, reason.value);
    }
  }

  ghost predicate Applies(w: World, identity: RelationIdentity, runId: string, artifact: Option<Artifact>) {
    && artifact.Some?
    && var a := artifact.value;
    && InScope(identity, a.run) && a.run.identity.runId == runId
    && (a.run.backend == PROVIDER ==> Verdict(w, a, true) == Verified)
  }

  /** Row k names the two functions exactly, through the bridge asked for. */
  ghost predicate RowWitnesses(identity: RelationIdentity, edges: seq<Edge>, k: int) {
    && 0 <= k < |edges|
    && edges[k].parentExact && edges[k].childExact
    && (edges[k].parent, edges[k].child) == (identity.source, identity.target)
    && (identity.scope.bridge.Some? ==> identity.scope.bridge == Some(edges[k].relationBridge))
  }

  ghost predicate WholeTraceOfRelation(identity: RelationIdentity, run: Run) {
    && run.integrity.status == COMPLETE && run.relation.status == COMPLETE
    && (run.relation.kind, run.relation.source, run.relation.target)
       == (identity.kind, identity.source, identity.target)
  }

  /** The whole answer, read off the relation and the run. */
  ghost predicate RuntimeAnswer(
      w: World, identity: RelationIdentity, runId: string, artifact: Option<Artifact>, result: RuntimeResult) {
    if !Applies(w, identity, runId, artifact) then
      && result.state == UNMEASURED && result.refs == [] && |result.limitations| == 1
      && match result.limitations[0] {
        case RunIdentityMismatch => artifact.Some? && artifact.value.run.identity.runId != runId
        case ArtifactRejected(reason) =>
          && artifact.Some? && artifact.value.run.backend == PROVIDER
          && Verdict(w, artifact.value, true) == reason != Verified
        case why =>
          if artifact.None? then why == KeyMissingOrMismatch("evidence_revision")
          else Breaks(identity, artifact.value.run, why)
      }
    else
      var run, edges := artifact.value.run, artifact.value.edges;
      && (result.state == OBSERVED <==> exists k :: RowWitnesses(identity, edges, k))
      && (result.state == NOT_OBSERVED <==>
            (forall k :: !RowWitnesses(identity, edges, k)) && WholeTraceOfRelation(identity, run))
      && (forall r :: r in result.refs <==>
            || (r == CoverageRef(run.relation.receipt) && run.backend == PROVIDER)
            || (r.EdgeRef? && r.runId == runId && RowWitnesses(identity, edges, r.index)))
      && result.limitations ==
         match result.state {
           case OBSERVED => if run.integrity.status == COMPLETE then [] else [TraceIntegrityPartial]
           case NOT_OBSERVED => [BoundedWorkloadAndWindowOnly, NotAStaticClaim]
           case UNMEASURED => [RelationTraceCoverageNotComplete]
         }
  }

  lemma {:induction false} WitnessMeaning(identity: RelationIdentity, edges: seq<Edge>)
    ensures HasWitness(identity, edges) <==> exists k :: RowWitnesses(identity, edges, k)
  {
    forall k ensures (0 <= k < |edges| && Witnesses(identity, edges[k])) <==> RowWitnesses(identity, edges, k) {
    }
  }

  lemma {:induction false} WitnessRefsMeaning(identity: RelationIdentity, runId: string, edges: seq<Edge>)
    ensures forall r :: r in WitnessRefs(identity, runId, edges) <==>
              r.EdgeRef? && r.runId == runId && RowWitnesses(identity, edges, r.index)
  {
    if edges != [] {
      var n := |edges| - 1;
      WitnessRefsMeaning(identity, runId, edges[..n]);
      forall k: int ensures RowWitnesses(identity, edges, k) <==>
          RowWitnesses(identity, edges[..n], k) || (k == n && Witnesses(identity, edges[n])) {
      }
    }
  }

  lemma {:induction false} AppliesMeaning(
      w: World, identity: RelationIdentity, runId: string, artifact: Option<Artifact>)
    ensures Inapplicable(w, identity, runId, artifact).None? <==> Applies(w, identity, runId, artifact)
  {
    if artifact.Some? {
      ScopeReasonMeaning(identity, artifact.value.run);
    }
    hide ScopeReason, InScope, Verdict, Breaks;
  }

  method ScanRows(identity: RelationIdentity, runId: string, edges: seq<Edge>) returns (seen: bool, refs: seq<Ref>)
    ensures seen <==> HasWitness(identity, edges)
    ensures refs == WitnessRefs(identity, runId, edges)
  {
    seen, refs := false, [];
    for i := 0 to |edges|
      invariant seen <==> exists k :: 0 <= k < i && Witnesses(identity, edges[k])
      invariant refs == WitnessRefs(identity, runId, edges[..i])
    {
      assert edges[..i + 1][..i] == edges[..i];
      if Witnesses(identity, edges[i]) {
        seen := true;
        refs := refs + [EdgeRef(runId, i)];
      }
    }
    assert edges[..|edges|] == edges;
  }

  method DeriveRuntime(w: World, identity: RelationIdentity, runId: string, artifact: Option<Artifact>)
    returns (result: RuntimeResult)
    ensures result.state == StateOf(w, identity, runId, artifact)
    ensures match Inapplicable(w, identity, runId, artifact)
            case Some(reason) => result.refs == [] && result.limitations == [reason]
            case None =>
              var run := artifact.value.run;
              && result.refs == (if run.backend == PROVIDER then [CoverageRef(run.relation.receipt)] else [])
                                + WitnessRefs(identity, runId, artifact.value.edges)
              && result.limitations == LimitationsOf(result.state, run)
    ensures RuntimeAnswer(w, identity, runId, artifact, result)
  {
    hide ScopeReason, Verdict, HasWitness, WitnessRefs, RuntimeAnswer;
    if artifact.None? {
      RefusalIsTheAnswer(w, identity, runId, artifact, KeyMissingOrMismatch("evidence_revision"));
      return RuntimeResult(UNMEASURED, [], [KeyMissingOrMismatch("evidence_revision")]);
    }
    var a := artifact.value;
    var reason := ScopeReason(identity, a.run);
    if reason.Some? {
      RefusalIsTheAnswer(w, identity, runId, artifact, reason.value);
      return RuntimeResult(UNMEASURED, [], [reason.value]);
    }
    if a.run.identity.runId != runId {
      RefusalIsTheAnswer(w, identity, runId, artifact, RunIdentityMismatch);
      return RuntimeResult(UNMEASURED, [], [RunIdentityMismatch]);
    }
    var refs: seq<Ref> := [];
    if a.run.backend == PROVIDER {
      var verdict := ValidateBoundedArtifact(w, a, true);
      if verdict != Verified {
        RefusalIsTheAnswer(w, identity, runId, artifact, ArtifactRejected(verdict));
        return RuntimeResult(UNMEASURED, [], [ArtifactRejected(verdict)]);
      }
      refs := [CoverageRef(a.run.relation.receipt)];
    }
    var seen, witnesses := ScanRows(identity, runId, a.edges);
    var state := if seen then OBSERVED else if CoversRelation(identity, a.run) then NOT_OBSERVED else UNMEASURED;
    result := RuntimeResult(state, refs + witnesses, LimitationsOf(state, a.run));
    RowsGiveTheAnswer(w, identity, runId, a, result);
  }

  lemma {:induction false} RefusalIsTheAnswer(
      w: World, identity: RelationIdentity, runId: string, artifact: Option<Artifact>, why: Limitation)
    requires Inapplicable(w, identity, runId, artifact) == Some(why)
    ensures RuntimeAnswer(w, identity, runId, artifact, RuntimeResult(UNMEASURED, [], [why]))
  {
    AppliesMeaning(w, identity, runId, artifact);
    if artifact.Some? {
      ScopeReasonMeaning(identity, artifact.value.run);
    }
    hide Applies, ScopeReason, Verdict;
  }

  lemma {:induction false} RowsGiveTheAnswer(
      w: World, identity: RelationIdentity, runId: string, a: Artifact, result: RuntimeResult)
    requires Inapplicable(w, identity, runId, Some(a)).None?
    requires result.state == StateOf(w, identity, runId, Some(a))
    requires result.refs == (if a.run.backend == PROVIDER then [CoverageRef(a.run.relation.receipt)] else [])
                            + WitnessRefs(identity, runId, a.edges)
    requires result.limitations == LimitationsOf(result.state, a.run)
    ensures RuntimeAnswer(w, identity, runId, Some(a), result)
  {
    AppliesMeaning(w, identity, runId, Some(a));
    WitnessMeaning(identity, a.edges);
    WitnessRefsMeaning(identity, runId, a.edges);
    hide Applies, Inapplicable, WitnessRefs, HasWitness, RowWitnesses;
  }

  // ---------- what a validated run proves ----------

  ghost predicate DistinctOffsets(bridge: EndpointMap) {
    forall i, j :: 0 <= i < j < |bridge| ==> bridge[i].1.payload.imageOffset != bridge[j].1.payload.imageOffset
  }

  ghost predicate PositiveCounts(edges: seq<Edge>) {
    forall k :: 0 <= k < |edges| ==> edges[k].count > 0
  }

  function OffsetOf(a: Artifact, node: NodeId): int
    requires node in Keys(a.bridge)
  {
    Lookup(a.bridge, node).value.payload.imageOffset
  }

  lemma {:induction false} OffsetTableEntries(bridge: seq<(NodeId, Endpoint)>)
    ensures forall o :: o in OffsetTable(bridge) ==>
              exists k :: 0 <= k < |bridge| && bridge[k].1.payload.imageOffset == o
                  && bridge[k].0 == OffsetTable(bridge)[o]
    ensures forall k :: 0 <= k < |bridge| ==> bridge[k].1.payload.imageOffset in OffsetTable(bridge)
    decreases |bridge|
  {
    if bridge != [] {
      var n := |bridge| - 1;
      OffsetTableEntries(bridge[..n]);
      assert forall k :: 0 <= k < n ==> bridge[..n][k] == bridge[k];
    }
  }

  /** With distinct offsets the offset table inverts the endpoint map. */
  lemma {:induction false} OffsetTableInverts(a: Artifact, node: NodeId, o: int)
    requires DistinctOffsets(a.bridge) && node in Keys(a.bridge)
    ensures o in OffsetTable(a.bridge) && OffsetTable(a.bridge)[o] == node <==> o == OffsetOf(a, node)
  {
    hide OffsetTable, DistinctOffsets;
    TableInverts(a.bridge, node, o);
  }

  lemma {:induction false} TableInverts(bridge: EndpointMap, node: NodeId, o: int)
    requires DistinctOffsets(bridge) && node in Keys(bridge)
    ensures o in OffsetTable(bridge) && OffsetTable(bridge)[o] == node <==>
            o == Lookup(bridge, node).value.payload.imageOffset
  {
    hide OffsetTable;
    OffsetTableEntries(bridge);
    var e := Lookup(bridge, node).value;
    var k :| 0 <= k < |bridge| && bridge[k] == (node, e);
    if o in OffsetTable(bridge) {
      var j :| 0 <= j < |bridge| && bridge[j].1.payload.imageOffset == o && bridge[j].0 == OffsetTable(bridge)[o];
    }
  }

  lemma {:induction false} RowTotalSign(edges: seq<Edge>, a: int, b: int)
    ensures (forall k :: 0 <= k < |edges| ==> (edges[k].parentOffset, edges[k].childOffset) != (a, b)) ==>
              RowTotal(edges, a, b) == 0
    ensures PositiveCounts(edges) ==> RowTotal(edges, a, b) >= 0
    ensures PositiveCounts(edges)
              && (exists k :: 0 <= k < |edges| && (edges[k].parentOffset, edges[k].childOffset) == (a, b)) ==>
              RowTotal(edges, a, b) > 0
    decreases |edges|
  {
    if edges != [] {
      RowTotalSign(edges[..|edges| - 1], a, b);
    }
  }

  /** The rows passed the check against the decoded trace, and the endpoints are the relation's own. */
  ghost predicate CheckedRows(a: Artifact, d: Decoded) {
    var cov := a.coverage.payload;
    && DistinctOffsets(a.bridge)
    && Keys(a.bridge) == {cov.source, cov.target}
    && RelationBridge(a.bridge, cov.source, cov.target, a.run.identity) == Some(a.run.bridge)
    && EdgeCheck(a, d, OffsetTable(a.bridge)) == Verified
  }

  lemma {:induction false} VerifiedRowsAreChecked(w: World, a: Artifact, check: bool)
    requires Verdict(w, a, check) == Verified && DistinctOffsets(a.bridge)
    ensures HeaderCheck(w, a) == Verified && CheckedRows(a, DecodedTrace(w, a))
  {
    hide EndpointChecks, Decode, OffsetTable, EdgeCheck, CalibrationVerdict, Keys, RelationBridge;
  }

  /** A row names the pair exactly when it carries the pair's offsets. */
  lemma {:induction false} RowNamesPair(a: Artifact, d: Decoded, k: nat)
    requires CheckedRows(a, d) && k < |a.edges|
    ensures var cov := a.coverage.payload;
            a.edges[k].parent == cov.source && a.edges[k].child == cov.target <==>
            (a.edges[k].parentOffset, a.edges[k].childOffset) == (OffsetOf(a, cov.source), OffsetOf(a, cov.target))
    ensures a.edges[k].parent == a.coverage.payload.source && a.edges[k].child == a.coverage.payload.target ==>
              a.edges[k].relationBridge == a.run.bridge && a.edges[k].parentExact && a.edges[k].childExact
  {
    hide OffsetTable, RowsMatchTrace, DistinctOffsets;
    assert EdgeBound(a, OffsetTable(a.bridge), a.edges[k]);
    OffsetTableInverts(a, a.coverage.payload.source, a.edges[k].parentOffset);
    OffsetTableInverts(a, a.coverage.payload.target, a.edges[k].childOffset);
  }

  /** How often the raw trace of a validated run has the target entered directly under the source. */
  function TraceCount(w: World, a: Artifact): nat
    requires HeaderCheck(w, a) == Verified
  {
    Count(DecodedTrace(w, a).edges, (OffsetOf(a, a.coverage.payload.source), OffsetOf(a, a.coverage.payload.target)))
  }

  lemma {:induction false} VerifiedRowsCountTrace(w: World, a: Artifact, check: bool)
    requires Verdict(w, a, check) == Verified && DistinctOffsets(a.bridge)
    ensures HeaderCheck(w, a) == Verified && {a.coverage.payload.source, a.coverage.payload.target} <= Keys(a.bridge)
    ensures var cov := a.coverage.payload;
            RowTotal(a.edges, OffsetOf(a, cov.source), OffsetOf(a, cov.target)) == TraceCount(w, a)
    ensures !HasRow(a, a.coverage.payload.source, a.coverage.payload.target) ==> TraceCount(w, a) == 0
    ensures PositiveCounts(a.edges) ==>
              (HasRow(a, a.coverage.payload.source, a.coverage.payload.target) <==> TraceCount(w, a) > 0)
  {
    hide Verdict, HeaderCheck, Decode, CheckedRows, RowTotal, PositiveCounts, HasRow;
    VerifiedRowsAreChecked(w, a, check);
    CheckedRowsCount(a, DecodedTrace(w, a));
  }

  lemma {:induction false} CheckedRowsCount(a: Artifact, d: Decoded)
    requires CheckedRows(a, d)
    ensures {a.coverage.payload.source, a.coverage.payload.target} <= Keys(a.bridge)
    ensures var cov := a.coverage.payload; var so, to := OffsetOf(a, cov.source), OffsetOf(a, cov.target);
            && RowTotal(a.edges, so, to) == Count(d.edges, (so, to))
            && (!HasRow(a, cov.source, cov.target) ==> Count(d.edges, (so, to)) == 0)
            && (PositiveCounts(a.edges) ==> (HasRow(a, cov.source, cov.target) <==> Count(d.edges, (so, to)) > 0))
  {
    var cov := a.coverage.payload;
    var so, to := OffsetOf(a, cov.source), OffsetOf(a, cov.target);
    forall k | 0 <= k < |a.edges|
      ensures a.edges[k].parent == cov.source && a.edges[k].child == cov.target <==>
              (a.edges[k].parentOffset, a.edges[k].childOffset) == (so, to)
    {
      RowNamesPair(a, d, k);
    }
    RowTotalSign(a.edges, so, to);
    CheckedTotal(a, d, so, to);
    hide CheckedRows, RowTotal, Keys;
  }

  lemma {:induction false} CheckedTotal(a: Artifact, d: Decoded, so: int, to: int)
    requires CheckedRows(a, d)
    requires so == OffsetOf(a, a.coverage.payload.source) && to == OffsetOf(a, a.coverage.payload.target)
    ensures RowTotal(a.edges, so, to) == Count(d.edges, (so, to))
  {
    hide OffsetTable, RowTotal, EdgeBound, DistinctOffsets;
    OffsetTableInverts(a, a.coverage.payload.source, so);
    OffsetTableInverts(a, a.coverage.payload.target, to);
    assert RowsMatchTrace(a, d, OffsetTable(a.bridge));
  }

  /** Equal relation bridges pin the endpoints of two validated runs to the same nodes and offsets. */
  lemma {:induction false} SameBridgeSameEndpoints(w: World, a: Artifact, b: Artifact)
    requires HeaderCheck(w, a) == Verified && HeaderCheck(w, b) == Verified
    requires a.run.bridge == b.run.bridge
    ensures a.coverage.payload.source == b.coverage.payload.source
    ensures a.coverage.payload.target == b.coverage.payload.target
    ensures OffsetOf(a, a.coverage.payload.source) == OffsetOf(b, b.coverage.payload.source)
    ensures OffsetOf(a, a.coverage.payload.target) == OffsetOf(b, b.coverage.payload.target)
  {
    EndpointOf(w, a, a.coverage.payload.source);
    EndpointOf(w, a, a.coverage.payload.target);
    EndpointOf(w, b, b.coverage.payload.source);
    EndpointOf(w, b, b.coverage.payload.target);
  }

  lemma {:induction false} EndpointOf(w: World, a: Artifact, node: NodeId)
    requires HeaderCheck(w, a) == Verified && node in Keys(a.bridge)
    ensures var e := Lookup(a.bridge, node).value; e.id == EndpointId(e.payload) && e.payload.node == node
  {
    var e := Lookup(a.bridge, node).value;
    var k :| 0 <= k < |a.bridge| && a.bridge[k] == (node, e);
    assert EndpointCheck(a.bridge[k], a.run.identity) == Verified;
  }

  /**
   A coverage receipt pins the evidence: two artifacts under one receipt id, accepted
   anywhere, are of one run over the same binary, the same source and the same raw trace.
   */
  lemma {:induction false} ReceiptPinsEvidence(v: World, w: World, a: Artifact, b: Artifact)
    requires HeaderCheck(v, a) == Verified && HeaderCheck(w, b) == Verified && a.coverage.id == b.coverage.id
    ensures a.coverage.payload == b.coverage.payload && a.run.identity == b.run.identity
    ensures a.run.relation.source == b.run.relation.source && a.run.relation.target == b.run.relation.target
    ensures v.files[a.run.binaryPath] == w.files[b.run.binaryPath]
    ensures v.files[a.run.sourcePath] == w.files[b.run.sourcePath]
    ensures v.files[a.tracePath] == w.files[b.tracePath]
    ensures v.symbols == w.symbols && v.num == w.num ==> DecodedTrace(v, a) == DecodedTrace(w, b)
  {
    HeaderBindsContent(v, a);
    HeaderBindsContent(w, b);
    hide HeaderCheck, Decode;
  }

  lemma {:induction false} HeaderBindsContent(w: World, a: Artifact)
    requires HeaderCheck(w, a) == Verified
    ensures a.coverage.id == CoverageId(a.coverage.payload) && a.coverage.payload.identity == a.run.identity
    ensures RelationConsistent(a)
    ensures a.run.binaryPath in w.files && Sha256(w.files[a.run.binaryPath]) == a.run.identity.binary
    ensures a.run.sourcePath in w.files && Sha256(w.files[a.run.sourcePath]) == a.run.identity.sourceRevision
    ensures a.tracePath in w.files && Sha256(w.files[a.tracePath]) == a.coverage.payload.traceSha
    ensures w.symbols(w.files[a.run.binaryPath]).Some?
  {
    hide EndpointChecks, Keys, RelationBridge, CommandConsistent, RelationConsistent;
  }

  /** The calibration run a validated artifact points at. */
  function CalibrationOf(w: World, a: Artifact): Option<Artifact> {
    var id := a.coverage.payload.calibration;
    if id.None? || (w.parent(a.tracePath), id.value) !in w.runs then None
    else Some(w.runs[(w.parent(a.tracePath), id.value)])
  }

  lemma {:induction false} VerifiedHasHeader(w: World, a: Artifact, check: bool)
    requires Verdict(w, a, check) == Verified
    ensures HeaderCheck(w, a) == Verified
  {
    hide HeaderCheck;
  }

  lemma {:induction false} VerifiedFacts(w: World, a: Artifact)
    requires Verdict(w, a, true) == Verified
    ensures HeaderCheck(w, a) == Verified && RelationConsistent(a)
    ensures var d := DecodedTrace(w, a);
            && TraceIntegrity(a, d) == a.run.integrity.status
            && EdgeCheck(a, d, OffsetTable(a.bridge)) == Verified
    ensures var d, cov := DecodedTrace(w, a), a.coverage.payload;
            cov.status == COMPLETE ==>
              && d.Complete()
              && Count(d.entered, OffsetOf(a, cov.source)) > 0
              && (ExpectedCount(d, OffsetTable(a.bridge), OffsetOf(a, cov.source), OffsetOf(a, cov.target)) > 0
                  || CalibrationVerdict(w, a, true) == Some(Verified))
  {
  }

  /** In a validated run, a row witnesses the relation exactly when it names the audited pair. */
  lemma {:induction false} WitnessIffRow(w: World, identity: RelationIdentity, runId: string, a: Artifact)
    requires Inapplicable(w, identity, runId, Some(a)).None? && a.run.backend == PROVIDER
    requires a.coverage.payload.source == identity.source && a.coverage.payload.target == identity.target
    requires DistinctOffsets(a.bridge)
    ensures Verdict(w, a, true) == Verified
    ensures HasWitness(identity, a.edges) <==> HasRow(a, identity.source, identity.target)
  {
    assert Verdict(w, a, true) == Verified && ScopeReason(identity, a.run).None?;
    assert identity.scope.bridge.None? || identity.scope.bridge.value == a.run.bridge;
    hide Verdict, HeaderCheck, Decode, CheckedRows, ScopeReason, Inapplicable;
    VerifiedRowsAreChecked(w, a, true);
    forall k | 0 <= k < |a.edges|
      ensures Witnesses(identity, a.edges[k]) <==>
                a.edges[k].parent == identity.source && a.edges[k].child == identity.target
    {
      RowNamesPair(a, DecodedTrace(w, a), k);
    }
  }

  lemma {:induction false} NotObservedFacts(w: World, identity: RelationIdentity, runId: string, a: Artifact)
    requires StateOf(w, identity, runId, Some(a)) == NOT_OBSERVED
    requires a.run.backend == PROVIDER && DistinctOffsets(a.bridge)
    ensures Verdict(w, a, true) == Verified && HeaderCheck(w, a) == Verified
    ensures a.coverage.payload.source == identity.source && a.coverage.payload.target == identity.target
    ensures a.coverage.payload.status == COMPLETE && !HasRow(a, identity.source, identity.target)
    ensures TraceCount(w, a) == 0
  {
    assert Verdict(w, a, true) == Verified;
    VerifiedFacts(w, a);
    assert CoversRelation(identity, a.run);
    WitnessIffRow(w, identity, runId, a);
    VerifiedRowsCountTrace(w, a, true);
  }

  lemma {:induction false} ForestOfCompleteTrace(num: Numerals, lines: seq<string>, known: set<int>, x: int, y: int)
    requires var d := Decode(num, lines, known); d.Complete() && Count(d.entered, x) > 0 && Count(d.edges, (x, y)) == 0
    ensures exists f :: Certifies(num, lines, known, f) && Frames(f, x) > 0 && DirectCalls(f, x, y) == 0
  {
    CompleteIffForest(num, lines, known);
    var f :| Certifies(num, lines, known, f);
    assert CountsOf(f, Decode(num, lines, known).entered, Decode(num, lines, known).edges);
    assert Frames(f, x) > 0 && DirectCalls(f, x, y) == 0;
  }

  /**
   NOT_OBSERVED is honest about the trace: it prints a call forest in which the
   caller was entered and never directly encloses the callee.
   */
  lemma {:induction false} NotObservedTraceHasNoSuchCall(
      w: World, identity: RelationIdentity, runId: string, a: Artifact)
    requires StateOf(w, identity, runId, Some(a)) == NOT_OBSERVED
    requires a.run.backend == PROVIDER && DistinctOffsets(a.bridge)
    ensures HeaderCheck(w, a) == Verified && {identity.source, identity.target} <= Keys(a.bridge)
    ensures exists f ::
              && Certifies(w.num, w.files[a.tracePath], w.symbols(w.files[a.run.binaryPath]).value, f)
              && Frames(f, OffsetOf(a, identity.source)) > 0
              && DirectCalls(f, OffsetOf(a, identity.source), OffsetOf(a, identity.target)) == 0
  {
    hide HeaderCheck, Verdict, Decode;
    NotObservedFacts(w, identity, runId, a);
    VerifiedFacts(w, a);
    HeaderFacts(w, a);
    ForestOfCompleteTrace(w.num, w.files[a.tracePath], w.symbols(w.files[a.run.binaryPath]).value,
                          OffsetOf(a, identity.source), OffsetOf(a, identity.target));
  }

  /**
   NOT_OBSERVED is calibrated: a validated run of the same binary, bound to the
   same endpoints, does contain the pair.
   */
  lemma {:induction false} NotObservedIsCalibrated(w: World, identity: RelationIdentity, runId: string, a: Artifact)
    requires StateOf(w, identity, runId, Some(a)) == NOT_OBSERVED
    requires a.run.backend == PROVIDER && DistinctOffsets(a.bridge)
    ensures {identity.source, identity.target} <= Keys(a.bridge) && CalibrationOf(w, a).Some?
    ensures var c := CalibrationOf(w, a).value;
            && Verdict(w, c, false) == Verified
            && c.run.identity.binary == a.run.identity.binary
            && c.coverage.payload.source == identity.source && c.coverage.payload.target == identity.target
            && OffsetOf(c, identity.source) == OffsetOf(a, identity.source)
            && OffsetOf(c, identity.target) == OffsetOf(a, identity.target)
            && (DistinctOffsets(c.bridge) && PositiveCounts(c.edges) ==> TraceCount(w, c) > 0)
  {
    hide HeaderCheck, Verdict, Decode, EdgeCheck, StateOf, OffsetTable, RelationBridge, HasRow, PositiveCounts;
    NotObservedFacts(w, identity, runId, a);
    VerifiedFacts(w, a);
    HeaderFacts(w, a);
    assert CalibrationVerdict(w, a, true) == Some(Verified);
    var c := CalibrationOf(w, a).value;
    assert ProvesTarget(c, a, a.coverage.payload.calibration.value);
    VerifiedHasHeader(w, c, false);
    HeaderFacts(w, c);
    SameBridgeSameEndpoints(w, a, c);
    if DistinctOffsets(c.bridge) && PositiveCounts(c.edges) {
      VerifiedRowsCountTrace(w, c, false);
    }
  }

  /**
   OBSERVED is answered exactly when the trace has the pair, if and only if the
   rows that name the pair, where there are any, add up to more than nothing.
   */
  lemma {:induction false} ObservedIsHonestIff(w: World, identity: RelationIdentity, runId: string, a: Artifact)
    requires Inapplicable(w, identity, runId, Some(a)).None? && a.run.backend == PROVIDER
    requires a.coverage.payload.source == identity.source && a.coverage.payload.target == identity.target
    requires DistinctOffsets(a.bridge)
    ensures HeaderCheck(w, a) == Verified && {identity.source, identity.target} <= Keys(a.bridge)
    ensures (StateOf(w, identity, runId, Some(a)) == OBSERVED <==> TraceCount(w, a) > 0)
            <==>
            (HasRow(a, identity.source, identity.target) ==>
               RowTotal(a.edges, OffsetOf(a, identity.source), OffsetOf(a, identity.target)) > 0)
  {
    hide Verdict, HeaderCheck, Decode, EdgeCheck, RowTotal, HasRow, HasWitness;
    WitnessIffRow(w, identity, runId, a);
    VerifiedRowsCountTrace(w, a, true);
  }

  /** With positive row counts, as every capture writes them, OBSERVED means that the trace has the pair. */
  lemma {:induction false} ObservedIffTraceHasPair(w: World, identity: RelationIdentity, runId: string, a: Artifact)
    requires Inapplicable(w, identity, runId, Some(a)).None? && a.run.backend == PROVIDER
    requires a.coverage.payload.source == identity.source && a.coverage.payload.target == identity.target
    requires DistinctOffsets(a.bridge) && PositiveCounts(a.edges)
    ensures HeaderCheck(w, a) == Verified
    ensures StateOf(w, identity, runId, Some(a)) == OBSERVED <==> TraceCount(w, a) > 0
  {
    hide Verdict, HeaderCheck, Decode, EdgeCheck, RowTotal, HasRow, HasWitness, PositiveCounts;
    WitnessIffRow(w, identity, runId, a);
    VerifiedRowsCountTrace(w, a, true);
  }

  /** The edge row that names the audited pair, with a count of the writer's choosing. */
  function PairRow(a: Artifact, count: int): Edge
    requires a.coverage.payload.source in Keys(a.bridge) && a.coverage.payload.target in Keys(a.bridge)
  {
    var s, t := Lookup(a.bridge, a.coverage.payload.source).value, Lookup(a.bridge, a.coverage.payload.target).value;
    Edge(s.payload.imageOffset, t.payload.imageOffset, true, true, a.coverage.payload.source, a.coverage.payload.target,
         s.id, t.id, a.run.bridge, count)
  }

  lemma {:induction false} ZeroCountRowKeepsEdgeCheck(a: Artifact, d: Decoded)
    requires a.coverage.payload.source in Keys(a.bridge) && a.coverage.payload.target in Keys(a.bridge)
    requires DistinctOffsets(a.bridge)
    requires RelationBridge(a.bridge, a.coverage.payload.source, a.coverage.payload.target, a.run.identity) ==
              Some(a.run.bridge)
    requires EdgeCheck(a, d, OffsetTable(a.bridge)) == Verified
    ensures EdgeCheck(a.(edges := a.edges + [PairRow(a, 0)]), d, OffsetTable(a.bridge)) == Verified
  {
    var row, offsets := PairRow(a, 0), OffsetTable(a.bridge);
    var b := a.(edges := a.edges + [row]);
    OffsetTableInverts(a, a.coverage.payload.source, row.parentOffset);
    OffsetTableInverts(a, a.coverage.payload.target, row.childOffset);
    forall k | 0 <= k < |b.edges| ensures EdgeBound(b, offsets, b.edges[k]) {
      assert k < |a.edges| ==> EdgeBound(a, offsets, a.edges[k]);
    }
    assert RowsMatchTrace(a, d, offsets);
    forall p, c ensures RowTotal(b.edges, p, c) == ExpectedCount(d, offsets, p, c) {
      assert b.edges[..|a.edges|] == a.edges;
    }
  }

  /**
   A row with count zero changes no total, so the validator still accepts, yet the
   relation turns from NOT_OBSERVED to OBSERVED although the trace has no such pair.
   */
  lemma {:induction false} ZeroCountRowIsObserved(w: World, identity: RelationIdentity, runId: string, a: Artifact)
    requires StateOf(w, identity, runId, Some(a)) == NOT_OBSERVED
    requires a.run.backend == PROVIDER && DistinctOffsets(a.bridge)
    ensures {a.coverage.payload.source, a.coverage.payload.target} <= Keys(a.bridge)
    ensures var b := a.(edges := a.edges + [PairRow(a, 0)]);
            && StateOf(w, identity, runId, Some(b)) == OBSERVED
            && HeaderCheck(w, b) == Verified && TraceCount(w, b) == 0
  {
    hide HeaderCheck, Verdict, Decode, EdgeCheck, StateOf, ScopeReason, OffsetTable, Keys, RelationBridge;
    NotObservedFacts(w, identity, runId, a);
    VerifiedFacts(w, a);
    HeaderFacts(w, a);
    ZeroCountRowKeepsEdgeCheck(a, DecodedTrace(w, a));
    VerdictDependsOnRowsByCheck(w, a, a.edges + [PairRow(a, 0)]);
    var b := a.(edges := a.edges + [PairRow(a, 0)]);
    BridgeInScope(w, identity, runId, a);
    assert Witnesses(identity, b.edges[|a.edges|]);
    WitnessedIsObserved(w, identity, runId, a, b);
  }

  lemma {:induction false} BridgeInScope(w: World, identity: RelationIdentity, runId: string, a: Artifact)
    requires StateOf(w, identity, runId, Some(a)) == NOT_OBSERVED
    ensures identity.scope.bridge.None? || identity.scope.bridge.value == a.run.bridge
  {
    hide Verdict;
  }

  /** Only the rows differ, the validator still accepts, and one row is a witness. */
  lemma {:induction false} WitnessedIsObserved(
      w: World, identity: RelationIdentity, runId: string, a: Artifact, b: Artifact)
    requires StateOf(w, identity, runId, Some(a)) == NOT_OBSERVED
    requires b == a.(edges := b.edges) && Verdict(w, b, true) == Verified && HasWitness(identity, b.edges)
    ensures StateOf(w, identity, runId, Some(b)) == OBSERVED
  {
    hide Verdict, ScopeReason;
  }

  lemma {:induction false} HeaderFacts(w: World, a: Artifact)
    requires HeaderCheck(w, a) == Verified
    ensures a.run.binaryPath in w.files && a.tracePath in w.files && w.symbols(w.files[a.run.binaryPath]).Some?
    ensures Keys(a.bridge) == {a.coverage.payload.source, a.coverage.payload.target}
    ensures RelationBridge(a.bridge, a.coverage.payload.source, a.coverage.payload.target, a.run.identity) ==
              Some(a.run.bridge)
  {
  }

  lemma {:induction false} HeaderIgnoresRows(w: World, a: Artifact, edges: seq<Edge>)
    ensures HeaderCheck(w, a.(edges := edges)) == HeaderCheck(w, a)
  {
    hide EndpointChecks, Keys, RelationBridge;
    var b := a.(edges := edges);
    assert CommandConsistent(b) == CommandConsistent(a) && RelationConsistent(b) == RelationConsistent(a);
  }

  /** The verdict looks at the edge rows only through EdgeCheck. */
  lemma {:induction false} VerdictDependsOnRowsByCheck(w: World, a: Artifact, edges: seq<Edge>)
    requires Verdict(w, a, true) == Verified && HeaderCheck(w, a) == Verified
    requires EdgeCheck(a.(edges := edges), DecodedTrace(w, a), OffsetTable(a.bridge)) == Verified
    ensures var b := a.(edges := edges);
            && HeaderCheck(w, b) == Verified && DecodedTrace(w, b) == DecodedTrace(w, a)
            && Verdict(w, b, true) == Verified
  {
    hide HeaderCheck, Decode, EdgeCheck;
    var b := a.(edges := edges);
    HeaderIgnoresRows(w, a, edges);
    assert CalibrationVerdict(w, b, true) == CalibrationVerdict(w, a, true);
  }
}
