/**
 One binary run twice: a calibration run in which the caller calls the callee, and
 a silent run in which it does not. The silent run is answered NOT_OBSERVED, and an
 edge row with count zero turns that answer into OBSERVED.
 */
module RuntimeExample {
  import opened Prelude
  import opened TraceDecoder
  import opened RuntimeEvidence
  import opened RuntimeCapture

  const CALLER := 1
  const CALLEE := 2
  const OTHER := 3
  const KNOWN: set<int> := {CALLER, CALLEE, OTHER}
  const WITH_CALL := Cons(CALLER, Cons(CALLEE, Nil, Nil), Nil)
  const WITHOUT_CALL := Cons(CALLER, Nil, Nil)
  const WITH_BOTH := Cons(CALLER, Cons(CALLEE, Nil, Cons(OTHER, Nil, Nil)), Nil)

  /** What the instrumented program writes for a call forest. */
  function Written(sp: Spelling, f: Forest): seq<string> {
    seq(|Print(f)|, k requires 0 <= k < |Print(f)| => Line(sp, Print(f)[k], 0))
        + [EndLine(sp, Marker(Size(f), Size(f), 0))]
  }

  /** A written trace decodes as COMPLETE with the counts of its forest. */
  lemma {:induction false} WrittenDecodes(num: Numerals, sp: Spelling, f: Forest)
    requires Undoes(num, sp) && Offsets(f) <= KNOWN
    ensures var d := Decode(num, Written(sp, f), KNOWN); d.Complete() && CountsOf(f, d.entered, d.edges)
  {
    WrittenTraceDecodes(num, sp, f, KNOWN, seq(|Print(f)|, k => 0), Written(sp, f));
    CompleteIffForest(num, Written(sp, f), KNOWN);
    assert Certifies(num, Written(sp, f), KNOWN, f);
  }

  function TheBuild(): Build {
    Build("bi", "src", Sha256(["b"]), Sha256(["s"]), "x", "cc", [], [])
  }

  function EndpointAt(node: NodeId, offset: int): Endpoint {
    var b := TheBuild();
    var p := EndpointPayload(node, b.binary, b.Identity(), b.sourceRevision, "r", offset, "");
    Endpoint(EndpointId(p), p)
  }

  function TheRequest(calibration: Option<Artifact>): Request {
    Request(TheBuild(), [("main", EndpointAt("main", CALLER)), ("callee", EndpointAt("callee", CALLEE))],
            "r", "main", "callee", calibration)
  }

  function CalibrationRun(sp: Spelling): Execution {
    Execution("cal", "direct-true", "w", 0, "cal.t", Written(sp, WITH_CALL))
  }

  function SilentRun(sp: Spelling): Execution {
    Execution("quiet", "direct-false", "w", 0, "quiet.t", Written(sp, WITHOUT_CALL))
  }

  lemma {:induction false} TheBridge(calibration: Option<Artifact>)
    ensures var r := TheRequest(calibration);
            && Bridged(r) && Keys(r.endpoints) == {"main", "callee"}
            && r.OffsetOfNode("main") == CALLER && r.OffsetOfNode("callee") == CALLEE
  {
    var e := TheRequest(calibration).endpoints;
    assert e[0].0 in Keys(e) && e[1].0 in Keys(e);
    assert e[1..][0] == e[1];
  }

  lemma {:induction false} DecodedRuns(num: Numerals, sp: Spelling)
    requires Undoes(num, sp)
    ensures var d := Decode(num, Written(sp, WITH_CALL), KNOWN);
            d.Complete() && Count(d.entered, CALLER) > 0 && d.edges.Keys == {(CALLER, CALLEE)}
    ensures var d := Decode(num, Written(sp, WITHOUT_CALL), KNOWN);
            d.Complete() && Count(d.entered, CALLER) > 0 && d.edges.Keys == {}
  {
    WrittenDecodes(num, sp, WITH_CALL);
    WrittenDecodes(num, sp, WITHOUT_CALL);
    DecodedPairs(num, sp, WITH_CALL);
    DecodedPairs(num, sp, WITHOUT_CALL);
    hide Decode, Written;
    var d := Decode(num, Written(sp, WITH_CALL), KNOWN);
    forall p ensures p in d.edges <==> p == (CALLER, CALLEE) {
      assert p in d.edges <==> DirectCalls(WITH_CALL, p.0, p.1) > 0;
    }
    forall p ensures p !in Decode(num, Written(sp, WITHOUT_CALL), KNOWN).edges {
      assert DirectCalls(WITHOUT_CALL, p.0, p.1) == 0;
    }
  }

  lemma {:induction false} DecodedPairs(num: Numerals, sp: Spelling, f: Forest)
    requires Undoes(num, sp) && Offsets(f) <= KNOWN
    ensures var d := Decode(num, Written(sp, f), KNOWN);
            forall a, b :: (a, b) in d.edges <==> DirectCalls(f, a, b) > 0
  {
    WrittenDecodes(num, sp, f);
    PositiveEdges(KNOWN, Start(Written(sp, f)), ReadEvents(num, EventLines(Written(sp, f))));
    hide CountsOf, Written, ScanFrom;
    var d := Decode(num, Written(sp, f), KNOWN);
    forall a, b ensures (a, b) in d.edges <==> DirectCalls(f, a, b) > 0 {
      assert Count(d.edges, (a, b)) == DirectCalls(f, a, b) by {
        CountOfPair(f, d, a, b);
      }
    }
  }

  lemma {:induction false} CountOfPair(f: Forest, d: Decoded, a: int, b: int)
    requires CountsOf(f, d.entered, d.edges)
    ensures Count(d.edges, (a, b)) == DirectCalls(f, a, b)
  {
  }

  function Calibration(num: Numerals, sp: Spelling): Artifact
    requires (CALLER, CALLEE) in Decode(num, Written(sp, WITH_CALL), KNOWN).edges
  {
    TheBridge(None);
    var d := Decode(num, Written(sp, WITH_CALL), KNOWN);
    Capture(TheRequest(None), CalibrationRun(sp), d, Rows(TheRequest(None), d, [(CALLER, CALLEE)]))
  }

  function TheWorld(num: Numerals, sp: Spelling): World
    requires (CALLER, CALLEE) in Decode(num, Written(sp, WITH_CALL), KNOWN).edges
  {
    World(
      map["bi" := ["b"], "src" := ["s"],
          "cal.t" := Written(sp, WITH_CALL), "quiet.t" := Written(sp, WITHOUT_CALL)],
      _ => "runs",
      map[("runs", "cal") := Calibration(num, sp)],
      _ => Some(KNOWN),
      num)
  }

  const PAIRS: seq<(int, int)> := [(CALLER, CALLEE)]
  const IDENTITY := RelationIdentity(
    "CALLS", "main", "callee", "r",
    Scope(Some(Sha256(["s"])), Some(Sha256(["b"])), Some(TheBuild().Identity()), "OBSERVED_CALL", None, None, None))

  /** An artifact that names no calibration is judged alike with and without looking for one. */
  lemma {:induction false} NothingToLookUp(w: World, a: Artifact)
    requires Verdict(w, a, true) == Verified && a.coverage.payload.calibration.None?
    ensures Verdict(w, a, false) == Verified
  {
    hide HeaderCheck, EdgeCheck, Decode;
  }

  lemma {:induction false} OnlyTwoEndpoints(calibration: Option<Artifact>, d: Decoded)
    ensures OnlyOwnEndpoints(TheRequest(calibration), d)
  {
    var r := TheRequest(calibration);
    TheBridge(calibration);
    var table := OffsetTable(r.endpoints);
    hide OffsetTable;
    forall o | o in table ensures table[o] in {r.source, r.target} {
      TableValuesAreKeys(r.endpoints, o);
    }
  }

  lemma {:induction false} WorldFiles(num: Numerals, sp: Spelling)
    requires (CALLER, CALLEE) in Decode(num, Written(sp, WITH_CALL), KNOWN).edges
    ensures var w, b := TheWorld(num, sp), TheBuild();
            && w.num == num && (forall c :: w.symbols(c) == Some(KNOWN)) && (forall p :: w.parent(p) == "runs")
            && w.runs == map[("runs", "cal") := Calibration(num, sp)]
            && b.binaryPath in w.files && Sha256(w.files[b.binaryPath]) == b.binary
            && b.sourcePath in w.files && Sha256(w.files[b.sourcePath]) == b.sourceRevision
            && "cal.t" in w.files && w.files["cal.t"] == Written(sp, WITH_CALL)
            && "quiet.t" in w.files && w.files["quiet.t"] == Written(sp, WITHOUT_CALL)
  {
    hide Calibration, Decode, Written;
  }

  lemma {:induction false} RunsAreRetained(num: Numerals, sp: Spelling, calibration: Option<Artifact>)
    requires (CALLER, CALLEE) in Decode(num, Written(sp, WITH_CALL), KNOWN).edges
    ensures Retained(TheWorld(num, sp), TheRequest(calibration), CalibrationRun(sp))
    ensures Retained(TheWorld(num, sp), TheRequest(calibration), SilentRun(sp))
    ensures TheWorld(num, sp).symbols(TheWorld(num, sp).files[TheRequest(calibration).build.binaryPath]) == Some(KNOWN)
  {
    hide TheWorld, TheBuild, Calibration, Decode, Written;
    WorldFiles(num, sp);
  }

  /** Both runs are captures made in the world, by the functions that read it. */
  lemma {:induction false} CalibrationIsCaptured(num: Numerals, sp: Spelling)
    requires Undoes(num, sp)
    ensures (CALLER, CALLEE) in Decode(num, Written(sp, WITH_CALL), KNOWN).edges
    ensures var w, r, x, c := TheWorld(num, sp), TheRequest(None), CalibrationRun(sp), Calibration(num, sp);
            var d := Decode(num, Written(sp, WITH_CALL), KNOWN);
            && Bridged(r) && Retained(w, r, x) && r.source == "main" && r.target == "callee" && r.calibration.None?
            && w.num == num && x.trace == Written(sp, WITH_CALL)
                && w.symbols(w.files[r.build.binaryPath]) == Some(KNOWN)
            && x.exitCode == 0 && d.Complete() && Enumerates(PAIRS, d.edges.Keys)
            && (forall k :: 0 <= k < |PAIRS| ==> PAIRS[k] in d.edges)
            && Captured(w, r, x, PAIRS) == c == Capture(r, x, d, Rows(r, d, PAIRS))
  {
    hide *;
    DecodedRuns(num, sp);
    TheBridge(None);
    TheRuns(sp, None);
    WorldFiles(num, sp);
    RunsAreRetained(num, sp, None);
    OnePair(Decode(num, Written(sp, WITH_CALL), KNOWN).edges.Keys);
    CapturedIsCapture(TheWorld(num, sp), TheRequest(None), CalibrationRun(sp), PAIRS,
        Decode(num, Written(sp, WITH_CALL), KNOWN));
    CalibrationIsCapture(num, sp);
  }

  lemma {:induction false} TheRuns(sp: Spelling, calibration: Option<Artifact>)
    ensures var r := TheRequest(calibration);
            && r.source == IDENTITY.source == "main" && r.target == IDENTITY.target == "callee"
            && r.calibration == calibration && IDENTITY.kind == "CALLS"
    ensures var x := CalibrationRun(sp); x.trace == Written(sp, WITH_CALL) && x.exitCode == 0
    ensures var x := SilentRun(sp); x.trace == Written(sp, WITHOUT_CALL) && x.exitCode == 0 && x.runId == "quiet"
  {
    hide Written, TheBuild, EndpointAt;
  }

  lemma {:induction false} OnePair(keys: set<(int, int)>)
    requires keys == {(CALLER, CALLEE)}
    ensures Enumerates(PAIRS, keys) && forall k :: 0 <= k < |PAIRS| ==> PAIRS[k] in keys
  {
    assert PAIRS[0] == (CALLER, CALLEE);
  }

  lemma {:induction false} CapturedIsCapture(w: World, r: Request, x: Execution, pairs: seq<(int, int)>, d: Decoded)
    requires Bridged(r) && Retained(w, r, x)
    requires d == Decode(w.num, x.trace, w.symbols(w.files[r.build.binaryPath]).value)
    requires forall k :: 0 <= k < |pairs| ==> pairs[k] in d.edges
    ensures {r.source, r.target} <= Keys(r.endpoints) && Captured(w, r, x, pairs) == Capture(r, x, d, Rows(r, d, pairs))
  {
    hide Decode, DistinctOffsets;
  }

  lemma {:induction false} CalibrationIsCapture(num: Numerals, sp: Spelling)
    requires var d := Decode(num, Written(sp, WITH_CALL), KNOWN);
             (CALLER, CALLEE) in d.edges && forall k :: 0 <= k < |PAIRS| ==> PAIRS[k] in d.edges
    requires {TheRequest(None).source, TheRequest(None).target} <= Keys(TheRequest(None).endpoints)
    ensures var r, d := TheRequest(None), Decode(num, Written(sp, WITH_CALL), KNOWN);
            Calibration(num, sp) == Capture(r, CalibrationRun(sp), d, Rows(r, d, PAIRS))
  {
    hide Decode, Written, TheRequest, CalibrationRun, Capture, Rows;
  }

  lemma {:induction false} CalibrationValidates(num: Numerals, sp: Spelling)
    requires Undoes(num, sp) && (CALLER, CALLEE) in Decode(num, Written(sp, WITH_CALL), KNOWN).edges
    ensures var w, c := TheWorld(num, sp), Calibration(num, sp);
            && Verdict(w, c, false) == Verified && c.run.integrity.status == COMPLETE
            && HasRow(c, "main", "callee")
  {
    hide *;
    var w, r, x, c := TheWorld(num, sp), TheRequest(None), CalibrationRun(sp), Calibration(num, sp);
    var d := Decode(num, Written(sp, WITH_CALL), KNOWN);
    DecodedRuns(num, sp);
    CalibrationIsCaptured(num, sp);
    OnlyTwoEndpoints(None, d);
    UncalibratedHolds(w, r, x, d);
    CapturedArtifactValidates(w, r, x, PAIRS);
    CapturedFields(r, x, d, Rows(r, d, PAIRS));
    UncalibratedNamesNone(r, x, d, Rows(r, d, PAIRS));
    NothingToLookUp(w, c);
    CalibrationHasRow(num, sp);
  }

  lemma {:induction false} UncalibratedHolds(w: World, r: Request, x: Execution, d: Decoded)
    requires Bridged(r) && r.calibration.None?
    ensures {r.source, r.target} <= Keys(r.endpoints) && CalibrationHolds(w, r, x, d)
  {
    hide DistinctOffsets;
  }

  lemma {:induction false} UncalibratedNamesNone(r: Request, x: Execution, d: Decoded, rows: seq<Edge>)
    requires {r.source, r.target} <= Keys(r.endpoints) && r.calibration.None?
    ensures Capture(r, x, d, rows).coverage.payload.calibration.None?
  {
  }

  lemma {:induction false} CalibrationHasRow(num: Numerals, sp: Spelling)
    requires Undoes(num, sp) && (CALLER, CALLEE) in Decode(num, Written(sp, WITH_CALL), KNOWN).edges
    ensures HasRow(Calibration(num, sp), "main", "callee")
  {
    var r, d := TheRequest(None), Decode(num, Written(sp, WITH_CALL), KNOWN);
    TheBridge(None);
    TableOfAll(r, "main");
    TableOfAll(r, "callee");
    TableRow(r, d, (CALLER, CALLEE));
    hide Decode, Written, OffsetTable, RowOf, Bridged, Undoes, Rows;
    var e := RowOf(r, d, (CALLER, CALLEE))[0];
    assert e in RowOf(r, d, (CALLER, CALLEE)) && PAIRS[0] == (CALLER, CALLEE);
    PairsGiveRows(r, d, PAIRS, (CALLER, CALLEE), e);
  }

  function SilentArtifact(num: Numerals, sp: Spelling): Artifact
    requires (CALLER, CALLEE) in Decode(num, Written(sp, WITH_CALL), KNOWN).edges
  {
    TheBridge(Some(Calibration(num, sp)));
    var r := TheRequest(Some(Calibration(num, sp)));
    Capture(r, SilentRun(sp), Decode(num, Written(sp, WITHOUT_CALL), KNOWN), [])
  }

  lemma {:induction false} SilentRunIsCaptured(num: Numerals, sp: Spelling)
    requires Undoes(num, sp)
    ensures (CALLER, CALLEE) in Decode(num, Written(sp, WITH_CALL), KNOWN).edges
    ensures var w, r, x := TheWorld(num, sp), TheRequest(Some(Calibration(num, sp))), SilentRun(sp);
            var d := Decode(num, Written(sp, WITHOUT_CALL), KNOWN);
            && Bridged(r) && Retained(w, r, x) && r.source == IDENTITY.source && r.target == IDENTITY.target
            && w.num == num && x.trace == Written(sp, WITHOUT_CALL)
                && w.symbols(w.files[r.build.binaryPath]) == Some(KNOWN)
            && x.exitCode == 0 && x.runId == "quiet" && IDENTITY.kind == "CALLS"
            && r.OffsetOfNode(r.source) == CALLER && r.OffsetOfNode(r.target) == CALLEE
            && Enumerates([], d.edges.Keys) && Rows(r, d, []) == []
            && Captured(w, r, x, []) == SilentArtifact(num, sp) == Capture(r, x, d, [])
            && OwnBridge(r) == SilentArtifact(num, sp).bridge && SilentArtifact(num, sp).run.backend == PROVIDER
  {
    DecodedRuns(num, sp);
    hide *;
    var calibration := Some(Calibration(num, sp));
    TheBridge(calibration);
    TheRuns(sp, calibration);
    WorldFiles(num, sp);
    RunsAreRetained(num, sp, calibration);
    var r, x, d := TheRequest(calibration), SilentRun(sp), Decode(num, Written(sp, WITHOUT_CALL), KNOWN);
    NoPair(r, d);
    CapturedIsCapture(TheWorld(num, sp), r, x, [], d);
    CapturedFields(r, x, d, []);
    SilentIsCapture(num, sp);
  }

  lemma {:induction false} NoPair(r: Request, d: Decoded)
    requires d.edges.Keys == {}
    ensures Enumerates([], d.edges.Keys) && Rows(r, d, []) == []
  {
  }

  lemma {:induction false} SilentIsCapture(num: Numerals, sp: Spelling)
    requires (CALLER, CALLEE) in Decode(num, Written(sp, WITH_CALL), KNOWN).edges
    requires var r := TheRequest(Some(Calibration(num, sp))); {r.source, r.target} <= Keys(r.endpoints)
    ensures var r := TheRequest(Some(Calibration(num, sp)));
            SilentArtifact(num, sp) == Capture(r, SilentRun(sp), Decode(num, Written(sp, WITHOUT_CALL), KNOWN), [])
  {
    hide Decode, Written, TheRequest, SilentRun, Capture, Calibration;
  }

  lemma {:induction false} CalibrationSuffices(w: World, r: Request, x: Execution, d: Decoded)
    requires {r.source, r.target} <= Keys(r.endpoints)
    requires Calibrated(r) && CalibrationIsStored(w, r, x) && r.calibration.value.run.identity.runId != ""
    ensures CalibrationHolds(w, r, x, d)
  {
    hide CalibrationIsStored, Calibrated;
  }

  /** The silent run is answered NOT_OBSERVED. */
  lemma {:induction false} SilentRunIsNotObserved(num: Numerals, sp: Spelling)
    requires Undoes(num, sp)
    ensures (CALLER, CALLEE) in Decode(num, Written(sp, WITH_CALL), KNOWN).edges
    ensures var a := SilentArtifact(num, sp);
            && a.run.backend == PROVIDER && DistinctOffsets(a.bridge)
            && StateOf(TheWorld(num, sp), IDENTITY, "quiet", Some(a)) == NOT_OBSERVED
  {
    hide *;
    DecodedRuns(num, sp);
    SilentRunIsCaptured(num, sp);
    var c := Calibration(num, sp);
    var w, r, x, d := TheWorld(num, sp), TheRequest(Some(c)), SilentRun(sp),
        Decode(num, Written(sp, WITHOUT_CALL), KNOWN);
    CalibrationValidates(num, sp);
    OnlyTwoEndpoints(Some(c), d);
    CalibrationIsFound(num, sp);
    CalibrationSuffices(w, r, x, d);
    OwnTable(r);
    SilentRunIsInScope(num, sp);
    CapturedRunIsAnswered(w, r, x, [], IDENTITY);
    NoCount(d, (CALLER, CALLEE));
  }

  lemma {:induction false} NoCount(d: Decoded, p: (int, int))
    requires d.edges.Keys == {}
    ensures Count(d.edges, p) == 0
  {
  }

  lemma {:induction false} CalibrationIsFound(num: Numerals, sp: Spelling)
    requires (CALLER, CALLEE) in Decode(num, Written(sp, WITH_CALL), KNOWN).edges
    requires var w, c := TheWorld(num, sp), Calibration(num, sp);
             Verdict(w, c, false) == Verified && c.run.integrity.status == COMPLETE && HasRow(c, "main", "callee")
    ensures var r := TheRequest(Some(Calibration(num, sp)));
            && {r.source, r.target} <= Keys(r.endpoints) && Calibrated(r)
                && r.calibration.value.run.identity.runId != ""
            && CalibrationIsStored(TheWorld(num, sp), r, SilentRun(sp))
  {
    TheBridge(Some(Calibration(num, sp)));
    TheBridge(None);
    hide Verdict, Decode, HasRow, Rows, Written;
  }

  lemma {:induction false} SilentRunIsInScope(num: Numerals, sp: Spelling)
    requires (CALLER, CALLEE) in Decode(num, Written(sp, WITH_CALL), KNOWN).edges
    ensures ScopeReason(IDENTITY, SilentArtifact(num, sp).run).None?
  {
    hide Decode, Rows, Written;
    TheBridge(Some(Calibration(num, sp)));
  }

  // ---------- a third endpoint ----------

  function ThreeEndpoints(): Request {
    TheRequest(None).(endpoints := TheRequest(None).endpoints + [("other", EndpointAt("other", OTHER))])
  }

  function RunOfBoth(sp: Spelling): Execution {
    Execution("both", "direct-both", "w", 0, "both.t", Written(sp, WITH_BOTH))
  }

  function WorldOfBoth(num: Numerals, sp: Spelling): World {
    World(map["bi" := ["b"], "src" := ["s"], "both.t" := Written(sp, WITH_BOTH)], _ => "runs", map[],
          _ => Some(KNOWN), num)
  }

  const BOTH: seq<(int, int)> := [(CALLER, CALLEE), (CALLER, OTHER)]

  lemma {:induction false} ThreeAreBridged()
    ensures var r := ThreeEndpoints();
            && Bridged(r) && r.source == "main" && r.target == "callee"
            && Keys(r.endpoints) == {"main", "callee", "other"}
            && r.OffsetOfNode("main") == CALLER && r.OffsetOfNode("other") == OTHER
  {
    var e := ThreeEndpoints().endpoints;
    assert e[0].0 in Keys(e) && e[1].0 in Keys(e) && e[2].0 in Keys(e);
    assert e[1..][0] == e[1] && e[1..][1] == e[2] && e[1..][1..][0] == e[2];
  }

  lemma {:induction false} BothAreRetained(num: Numerals, sp: Spelling)
    ensures var w, r, x := WorldOfBoth(num, sp), ThreeEndpoints(), RunOfBoth(sp);
            && Retained(w, r, x) && w.num == num && x.trace == Written(sp, WITH_BOTH)
            && w.symbols(w.files[r.build.binaryPath]) == Some(KNOWN)
  {
    hide Written;
  }

  lemma {:induction false} BothAreDecoded(num: Numerals, sp: Spelling)
    requires Undoes(num, sp)
    ensures Enumerates(BOTH, Decode(num, Written(sp, WITH_BOTH), KNOWN).edges.Keys)
  {
    DecodedPairs(num, sp, WITH_BOTH);
    hide Decode, Written;
    var d := Decode(num, Written(sp, WITH_BOTH), KNOWN);
    forall p ensures p in d.edges <==> p in BOTH {
      assert p in d.edges <==> DirectCalls(WITH_BOTH, p.0, p.1) > 0;
      CallsOfBoth(p.0, p.1);
      assert BOTH[0] == (CALLER, CALLEE) && BOTH[1] == (CALLER, OTHER);
    }
    assert forall k :: 0 <= k < |BOTH| ==> BOTH[k] in BOTH;
  }

  lemma {:induction false} CallsOfBoth(a: int, b: int)
    ensures DirectCalls(WITH_BOTH, a, b) == if a == CALLER && b in {CALLEE, OTHER} then 1 else 0
  {
    var last := Cons(OTHER, Nil, Nil);
    var both := Cons(CALLEE, Nil, last);
    assert DirectCalls(last, a, b) == 0 && Roots(last, b) == if b == OTHER then 1 else 0;
    assert DirectCalls(both, a, b) == 0 && Roots(both, b) == if b in {CALLEE, OTHER} then 1 else 0;
  }

  lemma {:induction false} OtherIsForeign(d: Decoded)
    requires (CALLER, OTHER) in d.edges
    ensures !OnlyOwnEndpoints(ThreeEndpoints(), d)
  {
    var r := ThreeEndpoints();
    ThreeAreBridged();
    TableOfAll(r, "main");
    TableOfAll(r, "other");
    hide Bridged, OffsetTable, ThreeEndpoints;
    var pair := (CALLER, OTHER);
    assert OffsetTable(r.endpoints)[pair.1] == "other";
  }

  /** A captured run in which the caller calls a third endpoint as well: its own receipt is rejected. */
  lemma {:induction false} ThirdEndpointIsRejected(num: Numerals, sp: Spelling)
    requires Undoes(num, sp)
    ensures Enumerates(BOTH, Decode(num, Written(sp, WITH_BOTH), KNOWN).edges.Keys)
    ensures var w, r, x := WorldOfBoth(num, sp), ThreeEndpoints(), RunOfBoth(sp);
            && Bridged(r) && Retained(w, r, x) && w.symbols(w.files[r.build.binaryPath]) == Some(KNOWN)
            && w.num == num && x.trace == Written(sp, WITH_BOTH)
            && (forall k :: 0 <= k < |BOTH| ==> BOTH[k] in Decode(num, x.trace, KNOWN).edges)
            && HeaderCheck(w, Captured(w, r, x, BOTH)) == Verified
            && Verdict(w, Captured(w, r, x, BOTH), true) != Verified
  {
    hide *;
    var w, r, x := WorldOfBoth(num, sp), ThreeEndpoints(), RunOfBoth(sp);
    ThreeAreBridged();
    BothAreRetained(num, sp);
    BothAreDecoded(num, sp);
    var d := Decode(num, x.trace, KNOWN);
    BothAreThere(d.edges.Keys);
    OtherIsForeign(d);
    CapturedArtifactValidates(w, r, x, BOTH);
  }

  lemma {:induction false} BothAreThere(keys: set<(int, int)>)
    requires Enumerates(BOTH, keys)
    ensures (CALLER, OTHER) in keys && forall k :: 0 <= k < |BOTH| ==> BOTH[k] in keys
  {
    assert BOTH[1] == (CALLER, OTHER);
  }

  /** Signed tally marks: a spelling of numbers with a reader that undoes it. */
  function Tally(n: int): string {
    if n >= 0 then "+" + seq(n, _ => '1') else "-" + seq(-n, _ => '1')
  }

  function ReadTally(s: string): Option<int> {
    if s == "" then None else if s[0] == '+' then Some(|s| - 1) else Some(1 - |s|)
  }

  lemma {:induction false} TallyIsUndone()
    ensures Undoes(Numerals(ReadTally, ReadTally), Spelling(Tally, Tally))
  {
    forall n: int ensures IsWord(Tally(n)) && ReadTally(Tally(n)) == Some(n) {
      var s := Tally(n);
      assert |s| == 1 + (if n >= 0 then n else -n) && s[0] == (if n >= 0 then '+' else '-');
      assert forall k :: 1 <= k < |s| ==> s[k] == '1';
    }
  }

  /** There is a world in which the row with count zero turns NOT_OBSERVED into OBSERVED. */
  lemma {:induction false} SomeZeroCountRowIsObserved()
    ensures exists w: World, a: Artifact ::
              && a.run.backend == PROVIDER && DistinctOffsets(a.bridge)
              && StateOf(w, IDENTITY, "quiet", Some(a)) == NOT_OBSERVED
              && {a.coverage.payload.source, a.coverage.payload.target} <= Keys(a.bridge)
              && StateOf(w, IDENTITY, "quiet", Some(a.(edges := a.edges + [PairRow(a, 0)]))) == OBSERVED
  {
    hide *;
    var num, sp := Numerals(ReadTally, ReadTally), Spelling(Tally, Tally);
    TallyIsUndone();
    SilentRunIsNotObserved(num, sp);
    var w, a := TheWorld(num, sp), SilentArtifact(num, sp);
    ZeroCountRowIsObserved(w, IDENTITY, "quiet", a);
  }
}
