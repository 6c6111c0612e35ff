/**
 Absence of a direct call: a certificate issued on an audited body, carried by an exact
 graph copy, and checked again before MISSING is answered.
 */
module AbsenceProof {
  import opened Prelude
  import opened SnapshotStore
  import opened DirectCallAudit

  // ---------- the compiler's side ----------

  datatype Unit = Unit(command: string, build: string, identity: string, language: string)

  /** What is on disk now: content digests, the compiler binary, the compile row of each source. */
  datatype World = World(files: map<string, string>, analyzer: string, units: map<string, Unit>)

  datatype Frontend = Frontend(ast: Ast, diagnostics: seq<DiagnosticRun>, dependencies: set<string>)

  /** The compiler front end: any function of the world and the source path. */
  datatype Clang = Clang(analyze: (World, string) -> Frontend)

  /** Same compile row, same binary, same contents of the source and of every file the first run read. */
  ghost predicate SameInputs(clang: Clang, a: World, b: World, path: string) {
    && path in a.units && path in b.units && a.units[path] == b.units[path]
    && path in a.files && path in b.files && a.files[path] == b.files[path]
    && a.analyzer == b.analyzer
    && forall d :: d in clang.analyze(a, path).dependencies ==>
      d in a.files && d in b.files && a.files[d] == b.files[d]
  }

  /** The analysis depends on nothing but those inputs. */
  ghost predicate Determined(clang: Clang) {
    forall a, b, path :: SameInputs(clang, a, b, path) ==> clang.analyze(a, path) == clang.analyze(b, path)
  }

  // ---------- names and edges of one revision ----------

  function Named(facts: map<string, Fact>, qname: string): set<string> {
    set i | i in facts && facts[i].Node? && facts[i].kind == "FUNCTION" && facts[i].language == "c"
            && facts[i].qname == qname
  }

  /** The one C function of that name, if there is exactly one. */
  function Resolve(facts: map<string, Fact>): string -> Option<string> {
    name =>
      if exists i :: i in Named(facts, name) && Named(facts, name) == {i} then
        var i :| i in Named(facts, name) && Named(facts, name) == {i};
        Some(i)
      else None
  }

  function HasCall(facts: map<string, Fact>, subject: string): string -> bool {
    target => EdgeId("CALLS", subject, target) in facts && facts[EdgeId("CALLS", subject, target)].Edge?
  }

  // ---------- issuing ----------

  datatype Certificate = Certificate(
    revision: string, analysis: string, subject: string, source: string, unit: Unit,
    sourceDigest: string, dependencies: map<string, string>, analyzer: string, ast: Ast,
    unsupported: set<string>, complete: bool, versions: string)

  /** One request to certify a subject, with what the provider run and the store's file table say. */
  datatype Request = Request(
    sid: string, now: int, base: string, source: string, subject: string,
    indexed: Option<string>, providerComplete: bool, factUnique: bool,
    candidates: seq<Candidate>, analysis: string, versions: string, raisesLate: bool)

  datatype State = State(db: Db, certificates: seq<Certificate>)

  function Digests(world: World, paths: set<string>): map<string, string>
    requires paths <= world.files.Keys
  {
    map p | p in paths :: world.files[p]
  }

  predicate IsSubject(facts: map<string, Fact>, id: string, source: string) {
    id in facts && facts[id].Node? && facts[id].kind == "FUNCTION" && facts[id].path == source
  }

  /** Every check that makes the issuer give up before it audits anything. */
  predicate CanAnalyze(db: Db, world: World, clang: Clang, q: Request) {
    && Current(db) == Some(q.base)
    && q.source in world.files && q.source in world.units
    && IsSubject(FactsOf(db, q.base), q.subject, q.source)
    && q.indexed == Some(world.files[q.source])
    && clang.analyze(world, q.source).dependencies <= world.files.Keys
    && q.providerComplete
  }

  function AuditSubject(facts: map<string, Fact>, fe: Frontend, q: Request): Subject
    requires IsSubject(facts, q.subject, q.source)
  {
    Subject(q.subject, facts[q.subject].name, q.source, q.candidates, fe.diagnostics)
  }

  function Audited(facts: map<string, Fact>, fe: Frontend, q: Request): set<string>
    requires IsSubject(facts, q.subject, q.source)
  {
    AuditReasons(fe.ast, AuditSubject(facts, fe, q), Resolve(facts), HasCall(facts, q.subject))
  }

  function Drafted(db: Db, world: World, clang: Clang, q: Request, reasons: set<string>): Certificate
    requires CanAnalyze(db, world, clang, q)
  {
    var fe := clang.analyze(world, q.source);
    var unit := world.units[q.source];
    var unsupported := reasons + (if unit.language == "c" then {} else {"cxx_outside_first_complete_capability"});
    Certificate(q.sid, q.analysis, q.subject, q.source, unit, world.files[q.source],
                Digests(world, fe.dependencies - {q.source}), world.analyzer, fe.ast,
                unsupported, reasons == {} && unsupported == {}, q.versions)
  }

  function NewReceipt(q: Request, unit: Unit, fact: string, kind: string): Receipt {
    Receipt(fact, kind, q.source, "clang_provider", unit.build, q.analysis)
  }

  /** A receipt for each candidate call the audit confirmed. */
  function CallReceipts(q: Request, unit: Unit, direct: set<string>, n: nat): seq<Receipt>
    requires n <= |q.candidates|
  {
    if n == 0 then []
    else
      var c := q.candidates[n - 1];
      CallReceipts(q, unit, direct, n - 1)
      + (if c.subject == q.subject && c.predicate_ == "CALL" && c.target in direct
         then [NewReceipt(q, unit, EdgeId("CALLS", q.subject, c.target), "CALLS")] else [])
  }

  function IssueReceipts(q: Request, unit: Unit, exhaustive: bool, direct: set<string>): seq<Receipt> {
    [NewReceipt(q, unit, q.subject, "FUNCTION")]
    + (if exhaustive then CallReceipts(q, unit, direct, |q.candidates|) else [])
  }

  function OverlayPlan(q: Request, receipts: seq<Receipt>): Plan {
    Overlay(q.sid, q.now, q.base, receipts, q.raisesLate)
  }

  function StepIssue(st: State, world: World, clang: Clang, q: Request): (State, Option<Certificate>) {
    if !CanAnalyze(st.db, world, clang, q) then (st, None)
    else
      var facts := FactsOf(st.db, q.base);
      var fe := clang.analyze(world, q.source);
      var reasons := Audited(facts, fe, q);
      if !q.factUnique then (st, None)
      else
        var c := Drafted(st.db, world, clang, q, reasons);
        var direct := AuditCounts(fe.ast, AuditSubject(facts, fe, q), Resolve(facts)).Keys;
        var (d, o) := Transact(st.db, OverlayPlan(q, IssueReceipts(q, c.unit, reasons == {}, direct)));
        if o.Raised? then (State(d, st.certificates), None)
        else (State(d, [c] + st.certificates), Some(c))
  }

  // ---------- answering ----------

  datatype Identity = Identity(
    kind: string, source: string, target: string, revision: string,
    semantics: Option<string>, unit: Option<string>, build: Option<string>)

  datatype Static = Unknown(reasons: set<string>) | Present(edge: string) | Missing(certificate: Certificate)

  predicate Published(db: Db, sid: string) {
    exists r :: r in db.rows && r.id == sid && r.published
  }

  /** Why the certificate does not speak about this query. */
  function QueryRefusal(c: Certificate, id: Identity, versions: string): Option<string> {
    if id.kind != "CALLS" || id.semantics != Some("DIRECT_STATIC_CALL") then Some("query_not_explicitly_direct_static")
    else if !c.complete then Some("not_production_complete_certificate")
    else if c.unit.language != "c" then Some("issuer_capability_not_complete")
    else if c.revision != id.revision || c.subject != id.source then Some("query_outside_certificate_domain")
    else if id.unit.Some? && id.unit != Some(c.source) then Some("query_translation_unit_mismatch")
    else if id.build.Some? && id.build != Some(c.unit.build) then Some("query_build_context_mismatch")
    else if c.unsupported != {} then Some("analysis_not_exhaustive")
    else if c.versions != versions then Some("issuer_or_authority_version_changed")
    else None
  }

  /** Why the certificate does not answer this query now; None when it does. */
  function Refusal(c: Certificate, id: Identity, db: Db, world: World, versions: string): Option<string> {
    if QueryRefusal(c, id, versions).Some? then QueryRefusal(c, id, versions)
    else if !Published(db, id.revision) then Some("canonical_revision_unavailable")
    else if c.source !in world.files || world.files[c.source] != c.sourceDigest then Some("source_digest_changed")
    else if exists p :: p in c.dependencies && (p !in world.files || world.files[p] != c.dependencies[p]) then
      Some("dependency_digest_changed")
    else if world.analyzer != c.analyzer then Some("analyzer_binary_or_version_changed")
    else if c.source !in world.units then Some("current_input_identity_unavailable")
    else if world.units[c.source] != c.unit then Some("build_context_or_compile_command_changed")
    else if !IsSubject(FactsOf(db, id.revision), id.source, c.source) then Some("subject_not_in_exact_tu")
    else if !(exists r :: r in ReceiptsOf(db, id.revision) && r.fact == id.source
                && r.lane == "clang_provider" && r.analysis == c.analysis) then
      Some("analyzer_run_lacks_canonical_support")
    else None
  }

  predicate IsFunction(facts: map<string, Fact>, id: string) {
    id in facts && facts[id].Node? && facts[id].kind == "FUNCTION"
  }

  ghost predicate OnRecord(db: Db, sid: string) {
    exists r :: r in db.rows && r.id == sid && r.published
  }

  ghost predicate SpeaksAbout(c: Certificate, id: Identity, versions: string) {
    && id.kind == "CALLS" && id.semantics == Some("DIRECT_STATIC_CALL")
    && c.complete && c.unsupported == {} && c.unit.language == "c" && c.versions == versions
    && c.revision == id.revision && c.subject == id.source
    && (id.unit.Some? ==> id.unit == Some(c.source)) && (id.build.Some? ==> id.build == Some(c.unit.build))
  }

  ghost predicate SameInputsNow(c: Certificate, world: World) {
    && c.source in world.files && world.files[c.source] == c.sourceDigest
    && (forall p :: p in c.dependencies ==> p in world.files && world.files[p] == c.dependencies[p])
    && world.analyzer == c.analyzer && c.source in world.units && world.units[c.source] == c.unit
  }

  /** The certificate speaks about this query, and every input it was made from is still the same. */
  ghost predicate Accepted(c: Certificate, id: Identity, db: Db, world: World, versions: string) {
    && SpeaksAbout(c, id, versions) && SameInputsNow(c, world) && OnRecord(db, id.revision)
    && IsFunction(FactsOf(db, id.revision), id.source) && FactsOf(db, id.revision)[id.source].path == c.source
    && Attested(c, id, db)
  }

  /** The run of the analyzer left its receipt for the subject in this revision. */
  ghost predicate Attested(c: Certificate, id: Identity, db: Db) {
    exists r :: r in ReceiptsOf(db, id.revision)
      && r.fact == id.source && r.lane == "clang_provider" && r.analysis == c.analysis
  }

  /** What each refusal says of the certificate. */
  ghost predicate Objects(c: Certificate, id: Identity, db: Db, world: World, versions: string, why: string) {
    || NotAbout(c, id, versions, why)
    || (why == "canonical_revision_unavailable" && !OnRecord(db, id.revision))
    || Moved(c, world, why)
    || (why == "subject_not_in_exact_tu"
        && !(IsFunction(FactsOf(db, id.revision), id.source)
             && FactsOf(db, id.revision)[id.source].path == c.source))
    || (why == "analyzer_run_lacks_canonical_support" && !Attested(c, id, db))
  }

  ghost predicate NotAbout(c: Certificate, id: Identity, versions: string, why: string) {
    || (why == "query_not_explicitly_direct_static"
        && (id.kind != "CALLS" || id.semantics != Some("DIRECT_STATIC_CALL")))
    || (why == "not_production_complete_certificate" && !c.complete)
    || (why == "issuer_capability_not_complete" && c.unit.language != "c")
    || (why == "query_outside_certificate_domain" && (c.revision != id.revision || c.subject != id.source))
    || (why == "query_translation_unit_mismatch" && id.unit !in {None, Some(c.source)})
    || (why == "query_build_context_mismatch" && id.build !in {None, Some(c.unit.build)})
    || (why == "analysis_not_exhaustive" && c.unsupported != {})
    || (why == "issuer_or_authority_version_changed" && c.versions != versions)
  }

  ghost predicate Moved(c: Certificate, world: World, why: string) {
    || (why == "source_digest_changed" && !(c.source in world.files && world.files[c.source] == c.sourceDigest))
    || (why == "dependency_digest_changed"
        && exists p :: p in c.dependencies && !(p in world.files && world.files[p] == c.dependencies[p]))
    || (why == "analyzer_binary_or_version_changed" && world.analyzer != c.analyzer)
    || (why == "current_input_identity_unavailable" && c.source !in world.units)
    || (why == "build_context_or_compile_command_changed" && c.source in world.units && world.units[c.source] != c.unit)
  }

  lemma {:induction false} QueryRefusalMeaning(c: Certificate, id: Identity, versions: string)
    ensures QueryRefusal(c, id, versions).None? <==> SpeaksAbout(c, id, versions)
    ensures QueryRefusal(c, id, versions).Some? ==> NotAbout(c, id, versions, QueryRefusal(c, id, versions).value)
  {
  }

  /** A certificate is turned down exactly when it is not acceptable, and for a reason that holds. */
  lemma {:induction false} AcceptedIff(c: Certificate, id: Identity, db: Db, world: World, versions: string)
    ensures Refusal(c, id, db, world, versions).None? <==> Accepted(c, id, db, world, versions)
    ensures Refusal(c, id, db, world, versions).Some? ==>
      Objects(c, id, db, world, versions, Refusal(c, id, db, world, versions).value)
  {
    QueryRefusalMeaning(c, id, versions);
    hide FactsOf, ReceiptsOf, QueryRefusal, SpeaksAbout, NotAbout;
  }

  /** Row e is the edge asked for. */
  ghost predicate IsTheEdge(facts: map<string, Fact>, e: string, id: Identity) {
    e in facts && facts[e].Edge? && facts[e].kind == id.kind
    && facts[e].source == id.source && facts[e].target == id.target
  }

  /** A receipt for the edge, from the compiler and from the build asked for. */
  ghost predicate EdgeSupported(db: Db, e: string, id: Identity) {
    exists r :: r in ReceiptsOf(db, id.revision) && r.fact == e && r.kind == id.kind
      && (id.semantics == Some("DIRECT_STATIC_CALL") ==> r.lane == "clang_provider")
      && (id.build.Some? ==> id.build == Some(r.build))
  }

  lemma {:induction false} EdgeMeaning(db: Db, e: string, id: Identity)
    ensures Matches(FactsOf(db, id.revision), e, id) <==> IsTheEdge(FactsOf(db, id.revision), e, id)
    ensures IsBacked(db, e, id) <==> EdgeSupported(db, e, id)
  {
    hide FactsOf, ReceiptsOf;
  }

  predicate Matches(facts: map<string, Fact>, row: string, id: Identity) {
    row in facts && facts[row] == Edge(id.kind, id.source, id.target)
  }

  predicate Backs(r: Receipt, row: string, id: Identity) {
    && r.fact == row && r.kind == id.kind
    && (id.semantics == Some("DIRECT_STATIC_CALL") ==> r.lane == "clang_provider")
    && (id.build.Some? ==> Some(r.build) == id.build)
  }

  predicate IsBacked(db: Db, row: string, id: Identity) {
    exists r :: r in ReceiptsOf(db, id.revision) && Backs(r, row, id)
  }

  /** The rows are the edge table of the revision, in whatever order. */
  ghost predicate ListsEdges(rows: seq<string>, facts: map<string, Fact>) {
    forall e :: e in rows <==> e in facts && facts[e].Edge?
  }

  /** The certificates recorded for this subject and revision. */
  predicate OnFile(c: Certificate, id: Identity) {
    c.revision == id.revision && c.subject == id.source
  }

  // ---------- what an issued certificate is ----------

  /** The base is current, the store has indexed these very contents, and every check of the run passed. */
  ghost predicate MayIssue(st: State, world: World, clang: Clang, q: Request) {
    && Current(st.db) == Some(q.base) && q.providerComplete && q.factUnique
    && q.source in world.units && q.source in world.files && q.indexed == Some(world.files[q.source])
    && (forall p :: p in clang.analyze(world, q.source).dependencies ==> p in world.files)
    && IsFunction(FactsOf(st.db, q.base), q.subject) && FactsOf(st.db, q.base)[q.subject].path == q.source
  }

  /** The audit of this request's subject in the tree the compiler produces finds nothing, and this is the body. */
  ghost predicate CoversBody(st: State, world: World, clang: Clang, q: Request, body: Ast) {
    var facts, fe := FactsOf(st.db, q.base), clang.analyze(world, q.source);
    && q.subject in facts && facts[q.subject].Node?
    && Exhaustive(fe.ast, Subject(q.subject, facts[q.subject].name, q.source, q.candidates, fe.diagnostics),
                  Resolve(facts), HasCall(facts, q.subject), body)
  }

  ghost predicate Covers(st: State, world: World, clang: Clang, q: Request) {
    exists body :: CoversBody(st, world, clang, q, body)
  }

  /** The certificate names what it was made from, and is complete exactly for a covered C body. */
  ghost predicate CertifiesRequest(st: State, world: World, clang: Clang, q: Request, c: Certificate) {
    && c.revision == q.sid && c.analysis == q.analysis && c.subject == q.subject && c.source == q.source
    && q.source in world.units && c.unit == world.units[q.source]
    && q.source in world.files && c.sourceDigest == world.files[q.source]
    && c.analyzer == world.analyzer && c.versions == q.versions && c.ast == clang.analyze(world, q.source).ast
    && (forall p :: p in c.dependencies <==> p in clang.analyze(world, q.source).dependencies && p != q.source)
    && (forall p :: p in c.dependencies ==> p in world.files && c.dependencies[p] == world.files[p])
    && (c.complete <==> c.unit.language == "c" && Covers(st, world, clang, q))
    && (c.complete <==> c.unsupported == {})
    && IsSubject(FactsOf(st.db, q.base), q.subject, q.source)
    && forall why :: why in c.unsupported <==>
         || why in Audited(FactsOf(st.db, q.base), clang.analyze(world, q.source), q)
         || (why == "cxx_outside_first_complete_capability" && c.unit.language != "c")
  }

  lemma {:induction false} IssueMeaning(st: State, world: World, clang: Clang, q: Request)
    ensures var (t, c) := StepIssue(st, world, clang, q);
      && (c.Some? ==> MayIssue(st, world, clang, q) && CertifiesRequest(st, world, clang, q, c.value)
                      && t.certificates == [c.value] + st.certificates)
      && (c.None? ==> t == st)
  {
    if CanAnalyze(st.db, world, clang, q) && q.factUnique {
      var facts, fe := FactsOf(st.db, q.base), clang.analyze(world, q.source);
      CoveredIsAudited(st, world, clang, q);
      DraftMeaning(st, world, clang, q, Audited(facts, fe, q));
      var direct := AuditCounts(fe.ast, AuditSubject(facts, fe, q), Resolve(facts)).Keys;
      var p := OverlayPlan(q, IssueReceipts(q, world.units[q.source], Audited(facts, fe, q) == {}, direct));
      hide AuditReasons, AuditCounts, Audited, Covers, Resolve, HasCall, Current, Transact, IssueReceipts, Drafted,
        CertifiesRequest, FactsOf;
      if Transact(st.db, p).1.Raised? {
        RaisedOverlayIsUndone(st.db, p);
      }
    }
  }

  lemma {:induction false} DraftMeaning(st: State, world: World, clang: Clang, q: Request, reasons: set<string>)
    requires CanAnalyze(st.db, world, clang, q) && (reasons == {} <==> Covers(st, world, clang, q))
    requires reasons == Audited(FactsOf(st.db, q.base), clang.analyze(world, q.source), q)
    ensures CertifiesRequest(st, world, clang, q, Drafted(st.db, world, clang, q, reasons))
  {
    hide Covers, Current, Audited;
    var c := Drafted(st.db, world, clang, q, reasons);
    if c.unit.language != "c" {
      assert "cxx_outside_first_complete_capability" in c.unsupported;
    }
  }

  /** A receipt the issuer adds: for the subject, or for a reported call in its covered body. */
  ghost predicate NewlySupported(st: State, world: World, clang: Clang, q: Request, r: Receipt) {
    && r.owner == q.source && r.lane == "clang_provider" && r.analysis == q.analysis
    && q.source in world.units && r.build == world.units[q.source].build
    && ((r.fact == q.subject && r.kind == "FUNCTION")
        || (r.kind == "CALLS"
            && exists t :: CoveredTarget(st, world, clang, q, t) && r.fact == EdgeId("CALLS", q.subject, t)))
  }

  /** The provider reported a call of t, and the covered body has one. */
  ghost predicate CoveredTarget(st: State, world: World, clang: Clang, q: Request, t: string) {
    && ReportedCall(q, t)
    && exists body, n :: CoversBody(st, world, clang, q, body) && Within(n, body)
                         && DirectCallTo(n, Resolve(FactsOf(st.db, q.base)), t)
  }

  ghost predicate ReportedCall(q: Request, t: string) {
    ReportedWithin(q, t, |q.candidates|)
  }

  ghost predicate ReportedWithin(q: Request, t: string, n: nat)
    requires n <= |q.candidates|
  {
    exists k :: 0 <= k < n && q.candidates[k].subject == q.subject
                && q.candidates[k].predicate_ == "CALL" && q.candidates[k].target == t
  }

  lemma {:induction false} CallReceiptsMeaning(q: Request, unit: Unit, direct: set<string>, n: nat, r: Receipt)
    requires n <= |q.candidates|
    ensures r in CallReceipts(q, unit, direct, n) <==>
      exists t :: t in direct && ReportedWithin(q, t, n)
        && r == Receipt(EdgeId("CALLS", q.subject, t), "CALLS", q.source, "clang_provider", unit.build, q.analysis)
  {
    hide EdgeId;
    if n > 0 {
      CallReceiptsMeaning(q, unit, direct, n - 1, r);
    }
  }

  lemma {:induction false} CoveredTargets(st: State, world: World, clang: Clang, q: Request, t: string)
    requires MayIssue(st, world, clang, q) && Covers(st, world, clang, q)
    ensures IsSubject(FactsOf(st.db, q.base), q.subject, q.source)
    ensures var facts, fe := FactsOf(st.db, q.base), clang.analyze(world, q.source);
      t in AuditCounts(fe.ast, AuditSubject(facts, fe, q), Resolve(facts)) && ReportedCall(q, t) <==>
      CoveredTarget(st, world, clang, q, t)
  {
    var facts, fe := FactsOf(st.db, q.base), clang.analyze(world, q.source);
    var s := AuditSubject(facts, fe, q);
    ExhaustiveIff(fe.ast, s, Resolve(facts), HasCall(facts, q.subject));
    var body :| CoversBody(st, world, clang, q, body);
    CallsOfBody(body, Resolve(facts), t);
    hide Exhaustive, Bodies, Walk, Direct, Resolve, HasCall, Within, DirectCallTo, FactsOf, ReportedCall;
    assert Bodies(Walk(fe.ast), s.name, s.source) == [body];
    forall b | CoversBody(st, world, clang, q, b) ensures b == body {
      assert Bodies(Walk(fe.ast), s.name, s.source) == [b];
    }
  }

  /** Exactly these receipts are added; the graph is that of the base, and the new revision is current. */
  lemma {:induction false} IssueSupports(st: State, world: World, clang: Clang, q: Request)
    requires Good(st.db) && StepIssue(st, world, clang, q).1.Some?
    ensures var t := StepIssue(st, world, clang, q).0;
      && Current(t.db) == Some(q.sid) && FactsOf(t.db, q.sid) == FactsOf(st.db, q.base)
      && forall r :: r in ReceiptsOf(t.db, q.sid) <==>
           r in ReceiptsOf(st.db, q.base) || NewlySupported(st, world, clang, q, r)
  {
    IssueMeaning(st, world, clang, q);
    var facts, fe := FactsOf(st.db, q.base), clang.analyze(world, q.source);
    var reasons := Audited(facts, fe, q);
    var direct := AuditCounts(fe.ast, AuditSubject(facts, fe, q), Resolve(facts)).Keys;
    var rs := IssueReceipts(q, world.units[q.source], reasons == {}, direct);
    var p := OverlayPlan(q, rs);
    hide CertifiesRequest, Good, Transact, FactsOf, ReceiptsOf, Audited, AuditCounts, IssueReceipts, Covers;
    assert StepIssue(st, world, clang, q).0.db == Transact(st.db, p).0 && Transact(st.db, p).1.Done?;
    OverlayCopiesTheGraph(st.db, p);
    OverlayIsCurrent(st.db, p);
    forall r ensures r in rs <==> NewlySupported(st, world, clang, q, r) {
      ReceiptsIssued(st, world, clang, q, r);
    }
  }

  lemma {:induction false} OverlayIsCurrent(db: Db, p: Plan)
    requires Good(db) && p.Overlay? && Transact(db, p).1.Done?
    ensures Current(Transact(db, p).0) == Some(p.sid)
  {
    PublishedIsCurrent(db, p);
    hide Stage, Good, Current;
  }

  ghost predicate IssuedWith(q: Request, unit: Unit, targets: set<string>, r: Receipt) {
    && r.owner == q.source && r.lane == "clang_provider" && r.analysis == q.analysis && r.build == unit.build
    && ((r.fact == q.subject && r.kind == "FUNCTION")
        || (r.kind == "CALLS"
            && exists t :: t in targets && ReportedCall(q, t) && r.fact == EdgeId("CALLS", q.subject, t)))
  }

  lemma {:induction false} IssueReceiptsMeaning(
      q: Request, unit: Unit, exhaustive: bool, direct: set<string>, r: Receipt)
    ensures r in IssueReceipts(q, unit, exhaustive, direct) <==>
            IssuedWith(q, unit, if exhaustive then direct else {}, r)
  {
    CallReceiptsMeaning(q, unit, direct, |q.candidates|, r);
    hide EdgeId, CallReceipts, ReportedWithin;
    if IssuedWith(q, unit, direct, r) && r.kind == "CALLS" && exhaustive {
      if t :| t in direct && ReportedCall(q, t) && r.fact == EdgeId("CALLS", q.subject, t) {
        assert ReportedWithin(q, t, |q.candidates|);
        assert r == Receipt(r.fact, "CALLS", q.source, "clang_provider", unit.build, q.analysis);
      }
    }
  }

  lemma {:induction false} ReceiptsIssued(st: State, world: World, clang: Clang, q: Request, r: Receipt)
    requires MayIssue(st, world, clang, q)
    ensures IsSubject(FactsOf(st.db, q.base), q.subject, q.source)
    ensures var facts, fe := FactsOf(st.db, q.base), clang.analyze(world, q.source);
      var direct := AuditCounts(fe.ast, AuditSubject(facts, fe, q), Resolve(facts)).Keys;
      r in IssueReceipts(q, world.units[q.source], Audited(facts, fe, q) == {}, direct) <==>
      NewlySupported(st, world, clang, q, r)
  {
    var facts, fe := FactsOf(st.db, q.base), clang.analyze(world, q.source);
    var unit, direct := world.units[q.source], AuditCounts(fe.ast, AuditSubject(facts, fe, q), Resolve(facts)).Keys;
    IssueReceiptsMeaning(q, unit, Audited(facts, fe, q) == {}, direct, r);
    CoveredIsAudited(st, world, clang, q);
    if Covers(st, world, clang, q) {
      forall t ensures t in direct && ReportedCall(q, t) <==> CoveredTarget(st, world, clang, q, t) {
        CoveredTargets(st, world, clang, q, t);
      }
    }
    NoCoverNoTarget(st, world, clang, q);
    hide *;
    SameTargets(st, world, clang, q, if Audited(facts, fe, q) == {} then direct else {}, r);
  }

  lemma {:induction false} SameTargets(
      st: State, world: World, clang: Clang, q: Request, targets: set<string>, r: Receipt)
    requires q.source in world.units
    requires forall t :: t in targets && ReportedCall(q, t) <==> CoveredTarget(st, world, clang, q, t)
    ensures IssuedWith(q, world.units[q.source], targets, r) <==> NewlySupported(st, world, clang, q, r)
  {
    hide CoveredTarget, ReportedCall, EdgeId;
  }

  lemma {:induction false} NoCoverNoTarget(st: State, world: World, clang: Clang, q: Request)
    ensures !Covers(st, world, clang, q) ==> forall t :: !CoveredTarget(st, world, clang, q, t)
  {
    hide CoversBody, Within, DirectCallTo, FactsOf;
  }

  lemma {:induction false} CoveredIsAudited(st: State, world: World, clang: Clang, q: Request)
    requires IsSubject(FactsOf(st.db, q.base), q.subject, q.source)
    ensures Audited(FactsOf(st.db, q.base), clang.analyze(world, q.source), q) == {} <==> Covers(st, world, clang, q)
  {
    var facts, fe := FactsOf(st.db, q.base), clang.analyze(world, q.source);
    ExhaustiveIff(fe.ast, AuditSubject(facts, fe, q), Resolve(facts), HasCall(facts, q.subject));
    hide AuditReasons, Exhaustive, FactsOf, Resolve, HasCall, Bodies, Walk;
    if Audited(facts, fe, q) == {} {
      var body :| Exhaustive(fe.ast, AuditSubject(facts, fe, q), Resolve(facts), HasCall(facts, q.subject), body);
      assert CoversBody(st, world, clang, q, body);
    }
    if Covers(st, world, clang, q) {
      var body :| CoversBody(st, world, clang, q, body);
    }
  }

  /** The whole answer, read off the tables, the certificates and the world. */
  ghost predicate StaticAnswer(st: State, id: Identity, world: World, versions: string, s: Static) {
    var facts := FactsOf(st.db, id.revision);
    var known := OnRecord(st.db, id.revision);
    match s
    case Present(e) => known && IsTheEdge(facts, e, id) && EdgeSupported(st.db, e, id)
    case Missing(c) =>
      && known && (forall e :: !IsTheEdge(facts, e, id)) && id.semantics == Some("DIRECT_STATIC_CALL")
      && c in st.certificates && Accepted(c, id, st.db, world, versions)
    case Unknown(reasons) =>
      if !known then reasons == {"canonical_revision_unavailable"}
      else if exists e :: IsTheEdge(facts, e, id) then
        && (forall e :: IsTheEdge(facts, e, id) ==> !EdgeSupported(st.db, e, id))
        && reasons == {"edge_without_applicable_admitted_support"}
      else if id.semantics != Some("DIRECT_STATIC_CALL") then
        reasons == {"no_positive_support_or_complete_absence_authority"}
      else AllTurnedDown(st, id, world, versions, reasons)
  }

  ghost predicate ForSubject(st: State, id: Identity, c: Certificate) {
    c in st.certificates && c.revision == id.revision && c.subject == id.source
  }

  /** No certificate for the subject is acceptable, and the reasons are why, each for one of them. */
  ghost predicate AllTurnedDown(st: State, id: Identity, world: World, versions: string, reasons: set<string>) {
    && (forall c :: ForSubject(st, id, c) ==> !Accepted(c, id, st.db, world, versions))
    && if forall c :: !ForSubject(st, id, c) then reasons == {"no_exact_direct_call_certificate"}
       else
         && (forall c :: ForSubject(st, id, c) ==>
               exists why :: why in reasons && Objects(c, id, st.db, world, versions, why))
         && (forall why :: why in reasons ==>
               exists c :: ForSubject(st, id, c) && Objects(c, id, st.db, world, versions, why))
  }

  class Authority {
    var state: State
    const clang: Clang

    constructor (clang: Clang)
      ensures state == State(EMPTY, []) && this.clang == clang
    {
      this.clang := clang;
      state := State(EMPTY, []);
    }

    method IssueDirectStaticCall(world: World, q: Request) returns (c: Option<Certificate>)
      modifies this
      ensures (state, c) == StepIssue(old(state), world, clang, q)
      ensures c.None? ==> state == old(state)
      ensures c.Some? ==>
                && MayIssue(old(state), world, clang, q) && CertifiesRequest(old(state), world, clang, q, c.value)
                && state.certificates == [c.value] + old(state).certificates
    {
      IssueMeaning(state, world, clang, q);
      hide MayIssue, CertifiesRequest;
      hide Transact, AuditReasons, AuditCounts;
      if !CanAnalyze(state.db, world, clang, q) { return None; }
      var facts := FactsOf(state.db, q.base);
      var fe := clang.analyze(world, q.source);
      var subject := AuditSubject(facts, fe, q);
      var exhaustive, reasons, direct :=
        AuditDirectBody(fe.ast, subject, Resolve(facts), HasCall(facts, q.subject));
      if !q.factUnique { return None; }
      var draft := Drafted(state.db, world, clang, q, reasons);
      var receipts := IssueReceipts(q, draft.unit, exhaustive, direct.Keys);
      var (d, o) := Transact(state.db, OverlayPlan(q, receipts));
      state := state.(db := d);
      if o.Raised? { return None; }
      state := state.(certificates := [draft] + state.certificates);
      c := Some(draft);
    }

    /** `derive_static`: a supported edge, else an applicable certificate, else nothing is known. */
    method DeriveStatic(id: Identity, rows: seq<string>, world: World, versions: string) returns (s: Static)
      requires ListsEdges(rows, FactsOf(state.db, id.revision))
      ensures StaticAnswer(state, id, world, versions, s)
    {
      hide StaticAnswer, Refusal, IsBacked, Matches;
      if !Published(state.db, id.revision) {
        NotPublished(state, id, world, versions);
        return Unknown({"canonical_revision_unavailable"});
      }
      var facts := FactsOf(state.db, id.revision);
      var found := false;
      for i := 0 to |rows|
        invariant forall e :: e in rows[..i] ==> !(Matches(facts, e, id) && IsBacked(state.db, e, id))
        invariant found <==> exists e :: e in rows[..i] && Matches(facts, e, id)
      {
        assert rows[..i + 1] == rows[..i] + [rows[i]];
        if Matches(facts, rows[i], id) {
          found := true;
          if IsBacked(state.db, rows[i], id) {
            EdgeIsPresent(state, id, world, versions, rows[i]);
            return Present(rows[i]);
          }
        }
      }
      assert rows[..|rows|] == rows;
      if found {
        NoEdgeIsSupported(state, id, world, versions, rows);
        return Unknown({"edge_without_applicable_admitted_support"});
      }
      NoSuchEdge(state, id, rows);
      if id.semantics != Some("DIRECT_STATIC_CALL") {
        NotAsked(state, id, world, versions);
        return Unknown({"no_positive_support_or_complete_absence_authority"});
      }
      var reasons: set<string> := {};
      var all := state.certificates;
      for i := 0 to |all|
        invariant forall c :: c in all[..i] && OnFile(c, id) ==> Refusal(c, id, state.db, world, versions).Some?
        invariant reasons == RefusalsOf(all[..i], id, state.db, world, versions)
      {
        assert all[..i + 1] == all[..i] + [all[i]];
        if OnFile(all[i], id) {
          var refusal := Refusal(all[i], id, state.db, world, versions);
          if refusal.None? {
            CallIsMissing(state, id, world, versions, all[i]);
            return Missing(all[i]);
          }
          reasons := reasons + {refusal.value};
        }
      }
      assert all[..|all|] == all;
      AllRefused(state, id, world, versions);
      s := Unknown(if reasons == {} then {"no_exact_direct_call_certificate"} else reasons);
    }
  }

  ghost function RefusalsOf(
      all: seq<Certificate>, id: Identity, db: Db, world: World, versions: string): set<string> {
    set c | c in all && OnFile(c, id) && Refusal(c, id, db, world, versions).Some? ::
      Refusal(c, id, db, world, versions).value
  }

  lemma {:induction false} PublishedIsOnRecord(db: Db, sid: string)
    ensures Published(db, sid) <==> OnRecord(db, sid)
  {
  }

  lemma {:induction false} NotPublished(st: State, id: Identity, world: World, versions: string)
    requires !Published(st.db, id.revision)
    ensures StaticAnswer(st, id, world, versions, Unknown({"canonical_revision_unavailable"}))
  {
    PublishedIsOnRecord(st.db, id.revision);
    hide OnRecord, Published, IsTheEdge, EdgeSupported, Accepted, Objects;
  }

  lemma {:induction false} EdgeIsPresent(st: State, id: Identity, world: World, versions: string, e: string)
    requires Published(st.db, id.revision)
    requires Matches(FactsOf(st.db, id.revision), e, id) && IsBacked(st.db, e, id)
    ensures StaticAnswer(st, id, world, versions, Present(e))
  {
    PublishedIsOnRecord(st.db, id.revision);
    EdgeMeaning(st.db, e, id);
    hide OnRecord, Published, IsTheEdge, EdgeSupported, Accepted, Objects;
  }

  lemma {:induction false} NoEdgeIsSupported(
      st: State, id: Identity, world: World, versions: string, rows: seq<string>)
    requires Published(st.db, id.revision) && ListsEdges(rows, FactsOf(st.db, id.revision))
    requires exists e :: e in rows && Matches(FactsOf(st.db, id.revision), e, id)
    requires forall e :: e in rows ==> !(Matches(FactsOf(st.db, id.revision), e, id) && IsBacked(st.db, e, id))
    ensures StaticAnswer(st, id, world, versions, Unknown({"edge_without_applicable_admitted_support"}))
  {
    PublishedIsOnRecord(st.db, id.revision);
    forall e | Matches(FactsOf(st.db, id.revision), e, id) ensures e in rows { EdgeIsListed(st, id, rows, e); }
    hide OnRecord, Published, IsTheEdge, EdgeSupported, Accepted, Objects, Matches, IsBacked, ListsEdges;
    forall e
      ensures Matches(FactsOf(st.db, id.revision), e, id) <==> IsTheEdge(FactsOf(st.db, id.revision), e, id)
      ensures IsBacked(st.db, e, id) <==> EdgeSupported(st.db, e, id)
    {
      EdgeMeaning(st.db, e, id);
    }
  }

  lemma {:induction false} EdgeIsListed(st: State, id: Identity, rows: seq<string>, e: string)
    requires ListsEdges(rows, FactsOf(st.db, id.revision)) && Matches(FactsOf(st.db, id.revision), e, id)
    ensures e in rows
  {
  }

  lemma {:induction false} NoSuchEdge(st: State, id: Identity, rows: seq<string>)
    requires ListsEdges(rows, FactsOf(st.db, id.revision))
    requires forall e :: e in rows ==> !Matches(FactsOf(st.db, id.revision), e, id)
    ensures forall e :: !IsTheEdge(FactsOf(st.db, id.revision), e, id)
  {
    forall e ensures !IsTheEdge(FactsOf(st.db, id.revision), e, id) {
      EdgeMeaning(st.db, e, id);
      if Matches(FactsOf(st.db, id.revision), e, id) {
        EdgeIsListed(st, id, rows, e);
        assert false;
      }
    }
  }

  lemma {:induction false} NotAsked(st: State, id: Identity, world: World, versions: string)
    requires Published(st.db, id.revision) && id.semantics != Some("DIRECT_STATIC_CALL")
    requires forall e :: !IsTheEdge(FactsOf(st.db, id.revision), e, id)
    ensures StaticAnswer(st, id, world, versions, Unknown({"no_positive_support_or_complete_absence_authority"}))
  {
    PublishedIsOnRecord(st.db, id.revision);
    hide OnRecord, Published, IsTheEdge, EdgeSupported, Accepted, Objects;
  }

  lemma {:induction false} CallIsMissing(st: State, id: Identity, world: World, versions: string, c: Certificate)
    requires Published(st.db, id.revision) && id.semantics == Some("DIRECT_STATIC_CALL")
    requires forall e :: !IsTheEdge(FactsOf(st.db, id.revision), e, id)
    requires c in st.certificates && Refusal(c, id, st.db, world, versions).None?
    ensures StaticAnswer(st, id, world, versions, Missing(c))
  {
    PublishedIsOnRecord(st.db, id.revision);
    AcceptedIff(c, id, st.db, world, versions);
    hide OnRecord, Published, IsTheEdge, EdgeSupported, Accepted, Objects, Refusal;
  }

  lemma {:induction false} AllRefused(st: State, id: Identity, world: World, versions: string)
    requires Published(st.db, id.revision) && id.semantics == Some("DIRECT_STATIC_CALL")
    requires forall e :: !IsTheEdge(FactsOf(st.db, id.revision), e, id)
    requires forall c :: c in st.certificates && OnFile(c, id) ==> Refusal(c, id, st.db, world, versions).Some?
    ensures var reasons := RefusalsOf(st.certificates, id, st.db, world, versions);
            StaticAnswer(st, id, world, versions,
                         Unknown(if reasons == {} then {"no_exact_direct_call_certificate"} else reasons))
  {
    PublishedIsOnRecord(st.db, id.revision);
    ReasonsForAll(st, id, world, versions);
    hide OnRecord, Published, IsTheEdge, EdgeSupported, AllTurnedDown, RefusalsOf, Refusal;
  }

  lemma {:induction false} ReasonsForAll(st: State, id: Identity, world: World, versions: string)
    requires forall c :: c in st.certificates && OnFile(c, id) ==> Refusal(c, id, st.db, world, versions).Some?
    ensures var reasons := RefusalsOf(st.certificates, id, st.db, world, versions);
            AllTurnedDown(st, id, world, versions,
                          if reasons == {} then {"no_exact_direct_call_certificate"} else reasons)
  {
    hide Accepted, Objects, Refusal, RefusalsOf;
    forall c | ForSubject(st, id, c)
      ensures !Accepted(c, id, st.db, world, versions)
      ensures exists why :: why in RefusalsOf(st.certificates, id, st.db, world, versions)
                            && Objects(c, id, st.db, world, versions, why)
    {
      RefusalListed(st, id, world, versions, c);
    }
    forall why | why in RefusalsOf(st.certificates, id, st.db, world, versions)
      ensures exists c :: ForSubject(st, id, c) && Objects(c, id, st.db, world, versions, why)
    {
      RefusalHolds(st, id, world, versions, why);
    }
  }

  lemma {:induction false} RefusalListed(st: State, id: Identity, world: World, versions: string, c: Certificate)
    requires ForSubject(st, id, c) && Refusal(c, id, st.db, world, versions).Some?
    ensures !Accepted(c, id, st.db, world, versions)
    ensures exists why :: why in RefusalsOf(st.certificates, id, st.db, world, versions)
                          && Objects(c, id, st.db, world, versions, why)
  {
    AcceptedIff(c, id, st.db, world, versions);
    hide Accepted, Objects, Refusal;
    assert Refusal(c, id, st.db, world, versions).value in RefusalsOf(st.certificates, id, st.db, world, versions);
  }

  lemma {:induction false} RefusalHolds(st: State, id: Identity, world: World, versions: string, why: string)
    requires why in RefusalsOf(st.certificates, id, st.db, world, versions)
    ensures exists c :: ForSubject(st, id, c) && Objects(c, id, st.db, world, versions, why)
  {
    hide Accepted, Objects, Refusal;
    var c :| c in st.certificates && OnFile(c, id) && Refusal(c, id, st.db, world, versions) == Some(why);
    AcceptedIff(c, id, st.db, world, versions);
  }

  // ---------- edge ids ----------

  predicate NoColon(s: string) {
    ':' !in s
  }

  function Join(s: string, t: string): string {
    s + ":" + t
  }

  /** The two pairs are one text cut at different colons. */
  ghost predicate Shifted(s1: string, t1: string, s2: string, t2: string) {
    exists u :: s2 == Join(s1, u) && t1 == Join(u, t2)
  }

  /** No id continues another one with a text that also starts an id. */
  ghost predicate FreeOfShifts(ids: set<string>) {
    forall s, u, t :: s in ids && Join(s, u) in ids && Join(u, t) in ids ==> t !in ids
  }

  lemma {:induction false} Joined(s: string, t: string)
    ensures var y := Join(s, t);
            && |y| == |s| + 1 + |t| && y[|s|] == ':' && y[..|s|] == s && y[|s| + 1..] == t
            && (forall k :: 0 <= k < |s| ==> y[k] == s[k])
            && forall k :: |s| < k < |y| ==> y[k] == t[k - |s| - 1]
  {
  }

  lemma {:induction false} EdgeIdOf(k: string, s: string, t: string)
    ensures |EdgeId(k, s, t)| >= 5 && EdgeId(k, s, t)[5..] == Join(k, Join(s, t))
  {
    assert EdgeId(k, s, t) == "edge:" + (k + ":" + (s + ":" + t));
  }

  lemma {:induction false} JoinAssociates(s: string, u: string, t: string)
    ensures Join(s, Join(u, t)) == Join(Join(s, u), t)
  {
  }

  /** A longer first part is the shorter one continued behind its colon. */
  lemma {:induction false} CutFurther(s1: string, t1: string, s2: string, t2: string)
    requires Join(s1, t1) == Join(s2, t2) && |s1| < |s2|
    ensures Shifted(s1, t1, s2, t2)
  {
    var y, n, m := Join(s1, t1), |s1|, |s2|;
    Joined(s1, t1);
    Joined(s2, t2);
    var u := s2[n + 1..];
    assert s2 == Join(s1, u) by {
      assert s2[n] == y[n] && s2[..n] == y[..n];
      assert s2 == s2[..n] + [s2[n]] + u;
    }
    assert t1 == Join(u, t2) by {
      assert t1[..m - n - 1] == u;
      assert t1[m - n - 1] == y[m];
      assert t1[m - n..] == y[m + 1..];
      assert t1 == t1[..m - n - 1] + [t1[m - n - 1]] + t1[m - n..];
    }
  }

  lemma {:induction false} NoColonCut(k1: string, a: string, k2: string, b: string)
    requires NoColon(k1) && NoColon(k2) && Join(k1, a) == Join(k2, b)
    ensures k1 == k2 && a == b
  {
    Joined(k1, a);
    Joined(k2, b);
    var x := Join(k1, a);
    assert |k1| == |k2|;
    assert x[..|k1|] == k1 && x[..|k2|] == k2;
  }

  /** Two edges of one kind share an id exactly when their ends are the same or shifted. */
  lemma {:induction false} EdgeIdsCollideIff(k: string, s1: string, t1: string, s2: string, t2: string)
    ensures EdgeId(k, s1, t1) == EdgeId(k, s2, t2) <==>
            (s1 == s2 && t1 == t2) || Shifted(s1, t1, s2, t2) || Shifted(s2, t2, s1, t1)
  {
    EdgeIdOf(k, s1, t1);
    EdgeIdOf(k, s2, t2);
    if EdgeId(k, s1, t1) == EdgeId(k, s2, t2) {
      Joined(k, Join(s1, t1));
      Joined(k, Join(s2, t2));
      Joined(s1, t1);
      Joined(s2, t2);
      if |s1| < |s2| {
        CutFurther(s1, t1, s2, t2);
      } else if |s2| < |s1| {
        CutFurther(s2, t2, s1, t1);
      }
    }
    if Shifted(s1, t1, s2, t2) {
      ShiftedCollide(k, s1, t1, s2, t2);
    }
    if Shifted(s2, t2, s1, t1) {
      ShiftedCollide(k, s2, t2, s1, t1);
    }
  }

  lemma {:induction false} ShiftedCollide(k: string, s1: string, t1: string, s2: string, t2: string)
    requires Shifted(s1, t1, s2, t2)
    ensures EdgeId(k, s1, t1) == EdgeId(k, s2, t2)
  {
    var u :| s2 == Join(s1, u) && t1 == Join(u, t2);
    JoinAssociates(s1, u, t2);
    assert EdgeId(k, s1, t1) == "edge:" + k + ":" + Join(s1, t1);
    assert EdgeId(k, s2, t2) == "edge:" + k + ":" + Join(s2, t2);
  }

  /** Edge ids over a set of node ids determine the edges exactly when the set is free of shifts. */
  lemma {:induction false} EdgeIdsDetermineEdgesIff(k: string, ids: set<string>)
    ensures (forall s1, t1, s2, t2 :: {s1, t1, s2, t2} <= ids && EdgeId(k, s1, t1) == EdgeId(k, s2, t2) ==>
               s1 == s2 && t1 == t2)
            <==> FreeOfShifts(ids)
  {
    hide EdgeId, Join;
    if FreeOfShifts(ids) {
      forall s1, t1, s2, t2 | {s1, t1, s2, t2} <= ids && EdgeId(k, s1, t1) == EdgeId(k, s2, t2)
        ensures s1 == s2 && t1 == t2
      {
        EdgeIdsCollideIff(k, s1, t1, s2, t2);
      }
    } else {
      var s, u, t :| s in ids && Join(s, u) in ids && Join(u, t) in ids && t in ids;
      EdgeIdsCollideIff(k, s, Join(u, t), Join(s, u), t);
      assert Shifted(s, Join(u, t), Join(s, u), t);
      Longer(s, u);
      assert {s, Join(u, t), Join(s, u), t} <= ids;
    }
  }

  lemma {:induction false} Longer(s: string, u: string)
    ensures s != Join(s, u)
  {
    Joined(s, u);
  }

  /** Over ids free of shifts the textual edge id determines kind and ends. */
  lemma {:induction false} EdgeIdIsInjective(
      ids: set<string>, k1: string, s1: string, t1: string, k2: string, s2: string, t2: string)
    requires NoColon(k1) && NoColon(k2) && FreeOfShifts(ids) && {s1, t1, s2, t2} <= ids
    requires EdgeId(k1, s1, t1) == EdgeId(k2, s2, t2)
    ensures k1 == k2 && s1 == s2 && t1 == t2
  {
    EdgeIdOf(k1, s1, t1);
    EdgeIdOf(k2, s2, t2);
    NoColonCut(k1, Join(s1, t1), k2, Join(s2, t2));
    EdgeIdsDetermineEdgesIff(k1, ids);
  }

  predicate MarkAt(s: string, i: nat) {
    i + 6 <= |s| && s[i..i + 6] == ":node:"
  }

  /** Starts with "node:" and never holds ":node:" further on, as the ids of symbols do. */
  ghost predicate UsualId(s: string) {
    "node:" <= s && forall i: nat :: !MarkAt(s, i)
  }

  /** In front of such an id too little room is left for another. */
  lemma {:induction false} ShortStart(u: string, t: string)
    requires UsualId(t) && |u| < 5
    ensures !UsualId(Join(u, t))
  {
    Joined(u, t);
    var y := Join(u, t);
    if |u| == 4 {
      assert y[4..10] == ":" + t[..5];
      assert MarkAt(y, 4);
    } else {
      assert y[|u|] == ':' && "node:"[|u|] != ':';
    }
  }

  lemma {:induction false} LongMiddle(s: string, u: string)
    requires "node:" <= u
    ensures !UsualId(Join(s, u))
  {
    Joined(s, u);
    var x := Join(s, u);
    assert x[|s|..|s| + 6] == ":" + u[..5];
    assert MarkAt(x, |s|);
  }

  /** A set of such ids is free of shifts. */
  lemma {:induction false} UsualIdsAreFree(ids: set<string>)
    requires forall s :: s in ids ==> UsualId(s)
    ensures FreeOfShifts(ids)
  {
    forall s, u, t | s in ids && Join(s, u) in ids && Join(u, t) in ids ensures t !in ids {
      assert UsualId(Join(s, u)) && UsualId(Join(u, t));
      Joined(u, t);
      if |u| >= 5 {
        assert u[..5] == Join(u, t)[..5];
        LongMiddle(s, u);
        assert false;
      } else if t in ids {
        ShortStart(u, t);
        assert false;
      }
    }
  }

  /** The id of every node that stands for a symbol. */
  function SymbolId(kind: string, digest: string): string {
    "node:" + kind + ":v2:" + digest
  }

  /** So a store's functions, modules and classes have ids free of shifts. */
  lemma {:induction false} SymbolIdsAreUsual(kind: string, digest: string)
    requires NoColon(kind) && NoColon(digest) && kind != "node"
    ensures UsualId(SymbolId(kind, digest))
  {
    var s, n := SymbolId(kind, digest), |kind|;
    assert forall k :: 5 <= k < 5 + n ==> s[k] == kind[k - 5] && s[k] in kind;
    assert forall k :: 9 + n <= k < |s| ==> s[k] == digest[k - 9 - n] && s[k] in digest;
    assert forall k :: 0 <= k < |s| && s[k] == ':' ==> k == 4 || k == 5 + n || k == 8 + n;
    assert s[5 + n] == ':' && s[6 + n] == 'v' && s[8 + n] == ':';
    assert n == 4 ==> s[5..9] == kind;
    forall i: nat ensures !MarkAt(s, i) {
      if MarkAt(s, i) {
        MarkReads(s, i);
      }
    }
  }

  lemma {:induction false} MarkReads(s: string, i: nat)
    requires MarkAt(s, i)
    ensures s[i] == ':' && s[i + 1] == 'n' && s[i + 5] == ':' && s[i + 1..i + 5] == "node"
  {
    var m := s[i..i + 6];
    assert m[0] == s[i] && m[1] == s[i + 1] && m[5] == s[i + 5];
    assert forall k :: 0 <= k < 4 ==> m[1 + k] == s[i + 1 + k] == "node"[k];
  }

  /** File ids are not: a file whose name holds ":node:" continues the id of another. */
  lemma {:induction false} FileIdsCollide(k: string)
    ensures EdgeId(k, "node:FILE:a", "node:FILE:b:node:FILE:c") == EdgeId(k, "node:FILE:a:node:FILE:b", "node:FILE:c")
    ensures !FreeOfShifts({"node:FILE:a", "node:FILE:b:node:FILE:c", "node:FILE:a:node:FILE:b", "node:FILE:c"})
  {
    var s, u, t := "node:FILE:a", "node:FILE:b", "node:FILE:c";
    assert Join(s, u) == "node:FILE:a:node:FILE:b" && Join(u, t) == "node:FILE:b:node:FILE:c";
    EdgeIdsCollideIff(k, s, Join(u, t), Join(s, u), t);
  }

  // ---------- runs of index transactions and certificates ----------

  datatype Command = Tx(plan: Plan) | Issue(world: World, request: Request)

  ghost predicate WellNamedOp(ids: set<string>, op: Op) {
    match op
    case PutNode(id, n) => n.Node? && (n.kind == "FUNCTION" ==> id in ids)
    case PutEdge(k, a, b) => NoColon(k) && (k == "CALLS" ==> a in ids && b in ids)
    case _ => true
  }

  /**
   Functions and the ends of call edges have ids of this set, whatever the ids of the
   other nodes are. Overlays come from the issuer alone.
   */
  ghost predicate Legal(ids: set<string>, c: Command) {
    c.Tx? ==> c.plan.Index? && forall op :: op in c.plan.work ==> WellNamedOp(ids, op)
  }

  function Step(st: State, clang: Clang, c: Command): State {
    match c
    case Tx(plan) => State(Transact(st.db, plan).0, st.certificates)
    case Issue(world, q) => StepIssue(st, world, clang, q).0
  }

  ghost function Reached(clang: Clang, cmds: seq<Command>): State {
    if cmds == [] then State(EMPTY, [])
    else Step(Reached(clang, cmds[..|cmds| - 1]), clang, cmds[|cmds| - 1])
  }

  ghost predicate GoodFact(ids: set<string>, id: string, f: Fact) {
    match f
    case Node(_, _, _, _, _) => f.kind == "FUNCTION" ==> id in ids
    case Edge(k, a, b) => id == EdgeId(k, a, b) && NoColon(k) && (k == "CALLS" ==> a in ids && b in ids)
  }

  ghost predicate GoodFacts(ids: set<string>, facts: map<string, Fact>) {
    forall i :: i in facts ==> GoodFact(ids, i, facts[i])
  }

  ghost predicate GoodNames(ids: set<string>, db: Db) {
    forall s :: GoodFacts(ids, FactsOf(db, s))
  }

  lemma {:induction false} WorkKeepsNames(ids: set<string>, db: Db, sid: string, work: seq<Op>, d: Db)
    requires GoodNames(ids, db) && ApplyAll(db, sid, work) == Some(d)
    requires forall op :: op in work ==> WellNamedOp(ids, op)
    ensures GoodNames(ids, d)
  {
    if work != [] {
      var k := |work| - 1;
      var e := ApplyAll(db, sid, work[..k]).value;
      WorkKeepsNames(ids, db, sid, work[..k], e);
      assert work[k] in work;
      OpKeepsNames(ids, e, sid, work[k], d);
    }
  }

  lemma {:induction false} OpKeepsNames(ids: set<string>, db: Db, sid: string, op: Op, d: Db)
    requires GoodNames(ids, db) && Apply(db, sid, op) == Some(d) && WellNamedOp(ids, op)
    ensures GoodNames(ids, d)
  {
    hide NoColon, Staging;
    forall s ensures GoodFacts(ids, FactsOf(d, s)) {
      assert GoodFacts(ids, FactsOf(db, s)) && GoodFacts(ids, FactsOf(db, sid));
    }
  }

  lemma {:induction false} StageKeepsNames(
      ids: set<string>, db: Db, sid: string, parent: Option<string>, now: int, copy: bool, work: seq<Op>, d: Db)
    requires GoodNames(ids, db) && Stage(db, sid, parent, now, copy, work) == Some(d)
    requires forall op :: op in work ==> WellNamedOp(ids, op)
    ensures GoodNames(ids, d)
  {
    hide GoodFact, LastCreated, ApplyAll, Unsupported, MarkPublished, Staging;
    var d0 := NewSnapshot(db, sid, parent, now).value;
    forall s ensures GoodFacts(ids, FactsOf(d0, s)) { assert GoodFacts(ids, FactsOf(db, s)); }
    var d1 := if copy && parent.Some? then CopyPrevious(d0, sid, parent.value).value else d0;
    forall s ensures GoodFacts(ids, FactsOf(d1, s)) {
      assert GoodFacts(ids, FactsOf(d0, s));
      assert parent.Some? ==> GoodFacts(ids, FactsOf(d0, parent.value));
    }
    var d2 := ApplyAll(d1, sid, work).value;
    WorkKeepsNames(ids, d1, sid, work, d2);
    forall s ensures GoodFacts(ids, FactsOf(d, s)) {
      assert FactsOf(d, s) == FactsOf(d2, s) && GoodFacts(ids, FactsOf(d2, s));
    }
  }

  lemma {:induction false} TransactKeepsNames(ids: set<string>, db: Db, p: Plan)
    requires GoodNames(ids, db) && (p.Index? ==> forall op :: op in p.work ==> WellNamedOp(ids, op))
    ensures GoodNames(ids, Transact(db, p).0)
  {
    hide GoodNames, Stage, Current;
    var parent := Current(db);
    match p
    case Index(sid, now, force, same, work, early, late) =>
      var copy := parent.Some? && !force;
      var staged := Stage(db, sid, parent, now, copy, work);
      if staged.Some? { StageKeepsNames(ids, db, sid, parent, now, copy, work, staged.value); }
    case Overlay(sid, now, base, receipts, late) =>
      var staged := Stage(db, sid, Some(base), now, true, Receipts(receipts));
      if staged.Some? { StageKeepsNames(ids, db, sid, Some(base), now, true, Receipts(receipts), staged.value); }
  }

  // ---------- what a recorded certificate stands for ----------

  /** Some analysis of these very inputs, audited against this very graph, produced the certificate. */
  ghost predicate IssuedFrom(clang: Clang, facts: map<string, Fact>, c: Certificate, w: World, q: Request) {
    && q.subject == c.subject && q.source == c.source && IsSubject(facts, c.subject, c.source)
    && c.source in w.units && w.units[c.source] == c.unit
    && c.source in w.files && w.files[c.source] == c.sourceDigest
    && w.analyzer == c.analyzer
    && (forall p :: p in clang.analyze(w, c.source).dependencies ==> p in w.files)
    && (forall p :: p in clang.analyze(w, c.source).dependencies && p != c.source ==>
          p in c.dependencies && c.dependencies[p] == w.files[p])
    && c.ast == clang.analyze(w, c.source).ast
    && (c.complete ==> Audited(facts, clang.analyze(w, c.source), q) == {})
  }

  ghost predicate GoodCertificate(clang: Clang, db: Db, c: Certificate) {
    c.revision in Ids(db.rows) && exists w, q :: IssuedFrom(clang, FactsOf(db, c.revision), c, w, q)
  }

  ghost predicate GoodState(ids: set<string>, clang: Clang, st: State) {
    && Good(st.db) && GoodNames(ids, st.db)
    && forall c :: c in st.certificates ==> GoodCertificate(clang, st.db, c)
  }

  lemma {:induction false} CertificatesSurvive(clang: Clang, db: Db, p: Plan, c: Certificate)
    requires Good(db) && GoodCertificate(clang, db, c)
    ensures GoodCertificate(clang, Transact(db, p).0, c)
  {
    hide Transact, Good, IssuedFrom;
    PublishedIsFrozen(db, p);
    var d := Transact(db, p).0;
    var r :| r in db.rows && r.id == c.revision;
    var i :| 0 <= i < |db.rows| && db.rows[i] == r;
    assert SameGraph(d, db, db.rows[i].id);
    assert d.rows[i] in d.rows;
  }

  lemma {:induction false} DraftIsIssuedFrom(db: Db, world: World, clang: Clang, q: Request, facts: map<string, Fact>)
    requires CanAnalyze(db, world, clang, q) && facts == FactsOf(db, q.base)
    ensures var c := Drafted(db, world, clang, q, Audited(facts, clang.analyze(world, q.source), q));
            IssuedFrom(clang, facts, c, world, q) && c.revision == q.sid
  {
    hide Audited, Current;
  }

  lemma {:induction false} SubjectIsInBase(db: Db, world: World, clang: Clang, q: Request)
    requires CanAnalyze(db, world, clang, q)
    ensures IsSubject(FactsOf(db, q.base), q.subject, q.source)
  {
  }

  /** The issued certificate is bound to a published exact copy of the audited graph. */
  lemma {:induction false} IssueKeeps(ids: set<string>, st: State, world: World, clang: Clang, q: Request)
    requires GoodState(ids, clang, st)
    ensures GoodState(ids, clang, StepIssue(st, world, clang, q).0)
  {
    hide Transact, Good, GoodNames, Drafted, Audited, AuditCounts, CanAnalyze, IssuedFrom, IssueReceipts;
    if CanAnalyze(st.db, world, clang, q) && q.factUnique {
      var facts := FactsOf(st.db, q.base);
      SubjectIsInBase(st.db, world, clang, q);
      var fe := clang.analyze(world, q.source);
      var c := Drafted(st.db, world, clang, q, Audited(facts, fe, q));
      DraftIsIssuedFrom(st.db, world, clang, q, facts);
      var direct := AuditCounts(fe.ast, AuditSubject(facts, fe, q), Resolve(facts)).Keys;
      var p := OverlayPlan(q, IssueReceipts(q, c.unit, Audited(facts, fe, q) == {}, direct));
      TransactKeeps(st.db, p);
      TransactKeepsNames(ids, st.db, p);
      forall k | k in st.certificates ensures GoodCertificate(clang, Transact(st.db, p).0, k) {
        CertificatesSurvive(clang, st.db, p, k);
      }
      if Transact(st.db, p).1.Done? {
        OverlayCopiesTheGraph(st.db, p);
        OverlayIsARow(st.db, p);
        assert IssuedFrom(clang, FactsOf(Transact(st.db, p).0, c.revision), c, world, q);
      }
    }
  }

  lemma {:induction false} OverlayIsARow(db: Db, p: Plan)
    requires Good(db) && p.Overlay? && Transact(db, p).1.Done?
    ensures p.sid in Ids(Transact(db, p).0.rows)
  {
    PublishedIsCurrent(db, p);
    TransactKeeps(db, p);
    hide Stage, GoodRows, AllSupported;
    var d := Transact(db, p).0;
    CurrentIsARow(d);
    assert d.rows[|d.rows| - 1] in d.rows;
  }

  lemma {:induction false} EmptyIsGood(ids: set<string>)
    ensures Good(EMPTY) && GoodNames(ids, EMPTY)
  {
  }

  lemma {:induction false} ReachedIsGood(ids: set<string>, clang: Clang, cmds: seq<Command>)
    requires forall c :: c in cmds ==> Legal(ids, c)
    ensures GoodState(ids, clang, Reached(clang, cmds))
  {
    hide Transact, StepIssue, GoodCertificate, GoodNames, Good;
    if cmds == [] {
      EmptyIsGood(ids);
    } else {
      var k := |cmds| - 1;
      ReachedIsGood(ids, clang, cmds[..k]);
      var st := Reached(clang, cmds[..k]);
      assert Legal(ids, cmds[k]);
      match cmds[k]
      case Tx(plan) =>
        TransactKeeps(st.db, plan);
        TransactKeepsNames(ids, st.db, plan);
        forall c | c in st.certificates ensures GoodCertificate(clang, Transact(st.db, plan).0, c) {
          CertificatesSurvive(clang, st.db, plan, c);
        }
      case Issue(world, q) =>
        IssueKeeps(ids, st, world, clang, q);
    }
  }

  /** A request that may be issued, under a new revision, always gets its certificate. */
  lemma {:induction false} IssueGoesThrough(ids: set<string>, st: State, world: World, clang: Clang, q: Request)
    requires GoodState(ids, clang, st) && MayIssue(st, world, clang, q)
    requires q.sid !in Ids(st.db.rows) && !q.raisesLate
    ensures StepIssue(st, world, clang, q).1.Some?
  {
    var facts, fe := FactsOf(st.db, q.base), clang.analyze(world, q.source);
    assert GoodFacts(ids, facts);
    var direct := AuditCounts(fe.ast, AuditSubject(facts, fe, q), Resolve(facts)).Keys;
    var rs := IssueReceipts(q, world.units[q.source], Audited(facts, fe, q) == {}, direct);
    forall r | r in rs ensures r.fact in facts && facts[r.fact].kind == r.kind {
      ReceiptsIssued(st, world, clang, q, r);
      SupportedIsAFact(ids, st, world, clang, q, r);
    }
    hide GoodState, GoodFacts, Audited, AuditCounts, IssueReceipts, Drafted, FactsOf, Current;
    OverlayPublishes(st.db, OverlayPlan(q, rs));
    hide Transact;
  }

  lemma {:induction false} SupportedIsAFact(
      ids: set<string>, st: State, world: World, clang: Clang, q: Request, r: Receipt)
    requires GoodFacts(ids, FactsOf(st.db, q.base)) && MayIssue(st, world, clang, q)
    requires NewlySupported(st, world, clang, q, r)
    ensures r.fact in FactsOf(st.db, q.base) && FactsOf(st.db, q.base)[r.fact].kind == r.kind
  {
    hide GoodFacts, GoodFact, EdgeId, CoveredTarget, FactsOf;
    var facts := FactsOf(st.db, q.base);
    if r.kind == "CALLS" {
      var t :| CoveredTarget(st, world, clang, q, t) && r.fact == EdgeId("CALLS", q.subject, t);
      CoveredTargetHasEdge(st, world, clang, q, t);
      CallRowsAreCalls(ids, facts, q.subject, t);
    }
  }

  /** A graph edge under the id of a call is a call. */
  lemma {:induction false} CallRowsAreCalls(ids: set<string>, facts: map<string, Fact>, subject: string, t: string)
    requires GoodFacts(ids, facts) && HasCall(facts, subject)(t)
    ensures facts[EdgeId("CALLS", subject, t)].kind == "CALLS"
  {
    var id := EdgeId("CALLS", subject, t);
    assert GoodFact(ids, id, facts[id]);
    var k, a, b := facts[id].kind, facts[id].source, facts[id].target;
    EdgeIdOf("CALLS", subject, t);
    EdgeIdOf(k, a, b);
    hide EdgeId, Join;
    NoColonCut("CALLS", Join(subject, t), k, Join(a, b));
  }

  lemma {:induction false} CoveredTargetHasEdge(st: State, world: World, clang: Clang, q: Request, t: string)
    requires CoveredTarget(st, world, clang, q, t)
    ensures HasCall(FactsOf(st.db, q.base), q.subject)(t)
  {
    var facts, fe := FactsOf(st.db, q.base), clang.analyze(world, q.source);
    var body, n :| CoversBody(st, world, clang, q, body) && Within(n, body) && DirectCallTo(n, Resolve(facts), t);
    OneTarget(n, Resolve(facts), t);
    hide Within, DirectCallTo, HasCall, Resolve, OnlyBody, CallsReported;
    assert BodyIsCovered(body, Resolve(facts), HasCall(facts, q.subject));
  }

  lemma {:induction false} OneTarget(n: Ast, resolve: string -> Option<string>, t: string)
    requires DirectCallTo(n, resolve, t)
    ensures n.kind == "CallExpr" && forall u :: DirectCallTo(n, resolve, u) ==> u == t
  {
    CallMeaning(n, resolve);
    hide DirectCallTo;
    assert Classify(n, resolve) == To(t);
  }

  // ---------- MISSING ----------

  /** The conditions under which `derive_static` answers MISSING with this certificate. */
  ghost predicate AnswersMissing(st: State, id: Identity, world: World, versions: string, c: Certificate) {
    && (forall e :: e in FactsOf(st.db, id.revision) ==> !Matches(FactsOf(st.db, id.revision), e, id))
    && c in st.certificates && OnFile(c, id) && Refusal(c, id, st.db, world, versions).None?
  }

  lemma {:induction false} NotRefusedMeans(c: Certificate, id: Identity, db: Db, world: World, versions: string)
    requires Refusal(c, id, db, world, versions).None?
    ensures id.kind == "CALLS" && c.complete && c.revision == id.revision && c.subject == id.source
    ensures c.source in world.files && world.files[c.source] == c.sourceDigest
    ensures forall p :: p in c.dependencies ==> p in world.files && world.files[p] == c.dependencies[p]
    ensures world.analyzer == c.analyzer && c.source in world.units && world.units[c.source] == c.unit
    ensures IsSubject(FactsOf(db, id.revision), id.source, c.source)
  {
  }

  /** While the certificate is accepted, the compiler would still produce the audited tree. */
  lemma {:induction false} AcceptedTreeIsCurrent(
      clang: Clang, st: State, id: Identity, world: World, versions: string, c: Certificate, w: World, q: Request)
    requires Determined(clang) && Refusal(c, id, st.db, world, versions).None?
    requires IssuedFrom(clang, FactsOf(st.db, c.revision), c, w, q)
    ensures clang.analyze(world, c.source) == clang.analyze(w, c.source)
  {
    hide Audited, Refusal, FactsOf, IsSubject;
    NotRefusedMeans(c, id, st.db, world, versions);
    assert SameInputs(clang, w, world, c.source);
  }

  /** A call edge named by its id is a row of the table. */
  lemma {:induction false} EdgeRowOf(ids: set<string>, facts: map<string, Fact>, source: string, target: string)
    requires FreeOfShifts(ids) && GoodFacts(ids, facts)
    requires IsFunction(facts, source) && IsFunction(facts, target) && HasCall(facts, source)(target)
    ensures facts[EdgeId("CALLS", source, target)] == Edge("CALLS", source, target)
  {
    var e := EdgeId("CALLS", source, target);
    assert GoodFact(ids, e, facts[e]) && GoodFact(ids, source, facts[source]) && GoodFact(ids, target, facts[target]);
    var k, a, b := facts[e].kind, facts[e].source, facts[e].target;
    EdgeIdOf("CALLS", source, target);
    EdgeIdOf(k, a, b);
    NoColonCut("CALLS", Join(source, target), k, Join(a, b));
    EdgeIdIsInjective(ids, "CALLS", source, target, k, a, b);
  }

  /** Of all C functions of the graph, t alone is called x. */
  ghost predicate OnlyFunction(facts: map<string, Fact>, x: string, t: string) {
    && IsCFunction(facts, x, t)
    && forall other :: IsCFunction(facts, x, other) ==> other == t
  }

  ghost predicate IsCFunction(facts: map<string, Fact>, x: string, t: string) {
    IsFunction(facts, t) && facts[t].language == "c" && facts[t].qname == x
  }

  lemma {:induction false} ResolveMeaning(facts: map<string, Fact>, x: string, t: string)
    ensures Resolve(facts)(x) == Some(t) <==> OnlyFunction(facts, x, t)
  {
    forall i ensures i in Named(facts, x) <==> IsCFunction(facts, x, i) {
    }
    if OnlyFunction(facts, x, t) {
      assert Named(facts, x) == {t};
    }
  }

  /**
   The subject has a single body, and every call in it is a plain call of a function that is
   the only one of its name in the graph and is not the target.
   */
  ghost predicate NoCallTo(ast: Ast, name: string, source: string, facts: map<string, Fact>, target: string) {
    exists body :: OnlyBody(ast, name, source, body)
      && forall n :: Within(n, body) ==>
           && !Foreign(n.kind)
           && (n.kind == "CallExpr" ==> exists x, t :: Names(n, x) && OnlyFunction(facts, x, t) && t != target)
  }

  lemma {:induction false} CoveredBodyHasNoSuchCall(
      ids: set<string>, ast: Ast, s: Subject, facts: map<string, Fact>, id: Identity)
    requires FreeOfShifts(ids) && GoodFacts(ids, facts) && id.kind == "CALLS" && id.source == s.id
    requires IsFunction(facts, s.id)
    requires AuditReasons(ast, s, Resolve(facts), HasCall(facts, s.id)) == {}
    requires forall e :: e in facts ==> !Matches(facts, e, id)
    ensures NoCallTo(ast, s.name, s.source, facts, id.target)
  {
    hide *;
    ExhaustiveIff(ast, s, Resolve(facts), HasCall(facts, s.id));
    var body :| Exhaustive(ast, s, Resolve(facts), HasCall(facts, s.id), body);
    ExhaustiveBody(ast, s, Resolve(facts), HasCall(facts, s.id), body);
    forall n | Within(n, body) && n.kind == "CallExpr"
      ensures exists x, t :: Names(n, x) && OnlyFunction(facts, x, t) && t != id.target
    {
      CoveredCall(ids, n, s.id, facts, id);
    }
    SingleBodyWithoutCall(ast, s.name, s.source, facts, id.target, body);
  }

  lemma {:induction false} ExhaustiveBody(
      ast: Ast, s: Subject, resolve: string -> Option<string>, hasCall: string -> bool, body: Ast)
    requires Exhaustive(ast, s, resolve, hasCall, body)
    ensures OnlyBody(ast, s.name, s.source, body)
    ensures forall n :: Within(n, body) ==> !Foreign(n.kind)
    ensures forall n :: Within(n, body) && n.kind == "CallExpr" ==>
              exists t :: DirectCallTo(n, resolve, t) && hasCall(t)
  {
    hide OnlyBody, Within, DirectCallTo;
  }

  lemma {:induction false} SingleBodyWithoutCall(
      ast: Ast, name: string, source: string, facts: map<string, Fact>, target: string, body: Ast)
    requires OnlyBody(ast, name, source, body)
    requires forall n :: Within(n, body) ==> !Foreign(n.kind)
    requires forall n :: Within(n, body) && n.kind == "CallExpr" ==>
      exists x, t :: Names(n, x) && OnlyFunction(facts, x, t) && t != target
    ensures NoCallTo(ast, name, source, facts, target)
  {
    hide OnlyBody, Within, Names, OnlyFunction;
  }

  /** A covered call goes to another function than the target, for its edge is a row of the table. */
  lemma {:induction false} CoveredCall(
      ids: set<string>, n: Ast, source: string, facts: map<string, Fact>, id: Identity)
    requires FreeOfShifts(ids) && GoodFacts(ids, facts) && id.kind == "CALLS" && id.source == source
    requires IsFunction(facts, source) && forall e :: e in facts ==> !Matches(facts, e, id)
    requires exists t :: DirectCallTo(n, Resolve(facts), t) && HasCall(facts, source)(t)
    ensures exists x, t :: Names(n, x) && OnlyFunction(facts, x, t) && t != id.target
  {
    hide GoodFacts, FreeOfShifts, Names, Resolve;
    var t :| DirectCallTo(n, Resolve(facts), t) && HasCall(facts, source)(t);
    var x :| Names(n, x) && Resolve(facts)(x) == Some(t);
    ResolveMeaning(facts, x, t);
    EdgeRowOf(ids, facts, source, t);
    assert !Matches(facts, EdgeId("CALLS", source, t), id);
  }

  /**
   Over every run of index transactions and certificates in which no two call edges
   between the functions and callers at hand could share an id: when MISSING is answered, the
   audited tree has exactly one body for the source, every call in it is direct and
   resolved, and none goes to the target. That tree is what the compiler would produce
   now, provided its analysis depends only on the inputs it reported.
   */
  lemma {:induction false} MissingMeansNoCall(
      ids: set<string>, clang: Clang, cmds: seq<Command>, id: Identity, world: World, versions: string, c: Certificate)
    requires FreeOfShifts(ids) && forall k :: k in cmds ==> Legal(ids, k)
    requires AnswersMissing(Reached(clang, cmds), id, world, versions, c)
    ensures var facts := FactsOf(Reached(clang, cmds).db, id.revision);
      && id.source in facts && facts[id.source].Node?
      && NoCallTo(c.ast, facts[id.source].name, c.source, facts, id.target)
    ensures Determined(clang) ==> clang.analyze(world, c.source).ast == c.ast
  {
    ReachedIsGood(ids, clang, cmds);
    hide Reached, GoodState, NoCallTo, Determined, Legal, AnswersMissing;
    MissingIsRight(ids, clang, Reached(clang, cmds), id, world, versions, c);
  }

  lemma {:induction false} MissingIsRight(
      ids: set<string>, clang: Clang, st: State, id: Identity, world: World, versions: string, c: Certificate)
    requires FreeOfShifts(ids) && GoodState(ids, clang, st) && AnswersMissing(st, id, world, versions, c)
    ensures var facts := FactsOf(st.db, id.revision);
      && id.source in facts && facts[id.source].Node?
      && NoCallTo(c.ast, facts[id.source].name, c.source, facts, id.target)
    ensures Determined(clang) ==> clang.analyze(world, c.source).ast == c.ast
  {
    hide Refusal, GoodFacts, NoCallTo, Determined, IssuedFrom, AuditReasons, Good;
    NotRefusedMeans(c, id, st.db, world, versions);
    assert GoodCertificate(clang, st.db, c);
    var facts := FactsOf(st.db, id.revision);
    var w, q :| IssuedFrom(clang, facts, c, w, q);
    if Determined(clang) {
      AcceptedTreeIsCurrent(clang, st, id, world, versions, c, w, q);
    }
    assert GoodFacts(ids, facts);
    CertifiedAudit(clang, facts, c, w, q);
    CoveredBodyHasNoSuchCall(ids, c.ast, AuditSubject(facts, clang.analyze(w, c.source), q), facts, id);
  }

  lemma {:induction false} CertifiedAudit(clang: Clang, facts: map<string, Fact>, c: Certificate, w: World, q: Request)
    requires IssuedFrom(clang, facts, c, w, q) && c.complete
    ensures IsSubject(facts, q.subject, q.source) && q.subject == c.subject && q.source == c.source
    ensures clang.analyze(w, c.source).ast == c.ast
    ensures var s := AuditSubject(facts, clang.analyze(w, c.source), q);
            AuditReasons(c.ast, s, Resolve(facts), HasCall(facts, s.id)) == {}
  {
    hide AuditReasons, Resolve, HasCall;
  }
}
