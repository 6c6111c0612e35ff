/** The syntax-tree audit behind a claim that a C function body makes no other direct call. */
module DirectCallAudit {
  import opened Prelude

  // ---------- the tree ----------

  datatype Reference = Reference(kind: string, name: Option<string>)

  /** Where a declaration says it is. */
  datatype Location = NoLocation | Included | InFile(path: string) | AtOffset | Elsewhere

  /** A child that is a node, or anything else the compiler may put in the list. */
  datatype Item = Child(node: Ast) | Other

  datatype Ast = Ast(
    kind: string,
    name: Option<string>,
    isStatic: bool,
    location: Location,
    plainBegin: bool,
    referenced: Option<Reference>,
    inner: seq<Item>)

  /** Pre-order: a node, then everything below each of its node children. */
  function Walk(node: Ast): seq<Ast>
    decreases node, 0
  {
    [node] + WalkItems(node.inner)
  }

  function WalkItems(items: seq<Item>): seq<Ast>
    decreases items
  {
    if items == [] then []
    else WalkItem(items[0]) + WalkItems(items[1..])
  }

  function WalkItem(item: Item): seq<Ast>
    decreases item
  {
    if item.Child? then Walk(item.node) else []
  }

  /** m occurs in the tree below n, n included. */
  ghost predicate Within(m: Ast, n: Ast)
    decreases n
  {
    m == n || exists i :: 0 <= i < |n.inner| && n.inner[i].Child? && Within(m, n.inner[i].node)
  }

  lemma {:induction false} WalkReachesExactlyTheTree(n: Ast, m: Ast)
    ensures m in Walk(n) <==> Within(m, n)
    decreases n, 0
  {
    WalkItemsReach(n.inner, m);
  }

  lemma {:induction false} WalkItemsReach(items: seq<Item>, m: Ast)
    ensures m in WalkItems(items) <==> exists i :: 0 <= i < |items| && items[i].Child? && Within(m, items[i].node)
    decreases items
  {
    if items != [] {
      WalkItemsReach(items[1..], m);
      WalkItemReaches(items[0], m);
      if m in WalkItems(items[1..]) {
        var i :| 0 <= i < |items[1..]| && items[1..][i].Child? && Within(m, items[1..][i].node);
        assert items[i + 1] == items[1..][i];
      }
      if i :| 0 <= i < |items| && items[i].Child? && Within(m, items[i].node) {
        assert i > 0 ==> items[1..][i - 1] == items[i];
      }
    }
  }

  lemma {:induction false} WalkItemReaches(item: Item, m: Ast)
    ensures m in WalkItem(item) <==> item.Child? && Within(m, item.node)
    decreases item
  {
    if item.Child? {
      WalkReachesExactlyTheTree(item.node, m);
    }
  }

  /** The node a chain of child positions leads to. */
  function NodeAt(n: Ast, place: seq<nat>): Option<Ast>
    decreases |place|
  {
    if place == [] then Some(n)
    else if place[0] < |n.inner| && n.inner[place[0]].Child? then NodeAt(n.inner[place[0]].node, place[1..])
    else None
  }

  function Places(n: Ast): seq<seq<nat>>
    decreases n, 0
  {
    [[]] + PlacesIn(n.inner, 0)
  }

  function PlacesIn(items: seq<Item>, k: nat): seq<seq<nat>>
    decreases items
  {
    if items == [] then []
    else Below(k, PlacesBelow(items[0])) + PlacesIn(items[1..], k + 1)
  }

  function PlacesBelow(item: Item): seq<seq<nat>>
    decreases item
  {
    if item.Child? then Places(item.node) else []
  }

  function Below(k: nat, places: seq<seq<nat>>): (r: seq<seq<nat>>)
    ensures |r| == |places| && forall i :: 0 <= i < |r| ==> r[i] == [k] + places[i]
  {
    seq(|places|, i requires 0 <= i < |places| => [k] + places[i])
  }

  ghost predicate Distinct<T>(xs: seq<T>) {
    forall i, j :: 0 <= i < j < |xs| ==> xs[i] != xs[j]
  }

  /** The walk visits every place of the tree exactly once. */
  lemma {:induction false} WalkVisitsEveryPlaceOnce(n: Ast)
    ensures |Places(n)| == |Walk(n)| && Distinct(Places(n))
    ensures forall i :: 0 <= i < |Walk(n)| ==> NodeAt(n, Places(n)[i]) == Some(Walk(n)[i])
    ensures forall place :: NodeAt(n, place).Some? ==> place in Places(n)
    decreases n, 0
  {
    PlacesInVisited(n.inner, 0);
    var below := PlacesIn(n.inner, 0);
    assert Places(n) == [[]] + below && Walk(n) == [n] + WalkItems(n.inner);
    forall i | 0 <= i < |Walk(n)| ensures NodeAt(n, Places(n)[i]) == Some(Walk(n)[i]) {
      if i > 0 {
        assert Places(n)[i] == below[i - 1] && Walk(n)[i] == WalkItems(n.inner)[i - 1];
        assert NodeIn(n.inner, 0, below[i - 1]) == Some(WalkItems(n.inner)[i - 1]);
      }
    }
    forall place | NodeAt(n, place).Some? ensures place in Places(n) {
      if place != [] {
        assert NodeIn(n.inner, 0, place).Some?;
        assert place in below;
      }
    }
  }

  /** The same, for a list of children counted from k. */
  function NodeIn(items: seq<Item>, k: nat, place: seq<nat>): Option<Ast> {
    if place != [] && k <= place[0] < k + |items| && items[place[0] - k].Child? then
      NodeAt(items[place[0] - k].node, place[1..])
    else None
  }

  lemma {:induction false} PlacesInVisited(items: seq<Item>, k: nat)
    ensures |PlacesIn(items, k)| == |WalkItems(items)| && Distinct(PlacesIn(items, k))
    ensures forall i :: 0 <= i < |WalkItems(items)| ==>
      NodeIn(items, k, PlacesIn(items, k)[i]) == Some(WalkItems(items)[i])
    ensures forall place :: NodeIn(items, k, place).Some? ==> place in PlacesIn(items, k)
    decreases items
  {
    if items != [] {
      PlacesInVisited(items[1..], k + 1);
      PlacesBelowVisited(items[0]);
      var first, rest := Below(k, PlacesBelow(items[0])), PlacesIn(items[1..], k + 1);
      var walked, more := WalkItem(items[0]), WalkItems(items[1..]);
      assert PlacesIn(items, k) == first + rest && WalkItems(items) == walked + more;
      forall i | 0 <= i < |walked| + |more|
        ensures NodeIn(items, k, (first + rest)[i]) == Some((walked + more)[i])
      {
        if i < |first| {
          assert first[i][0] == k && first[i][1..] == PlacesBelow(items[0])[i];
        } else {
          assert NodeIn(items[1..], k + 1, rest[i - |first|]) == Some(more[i - |first|]);
        }
      }
      forall place | NodeIn(items, k, place).Some? ensures place in first + rest {
        if place[0] == k {
          var i :| 0 <= i < |PlacesBelow(items[0])| && PlacesBelow(items[0])[i] == place[1..];
          assert first[i] == [k] + place[1..] == place;
        } else {
          assert NodeIn(items[1..], k + 1, place) == NodeIn(items, k, place);
        }
      }
      var all := first + rest;
      forall i, j | 0 <= i < j < |all| ensures all[i] != all[j] {
        if j < |first| {
          assert first[i][1..] == PlacesBelow(items[0])[i] && first[j][1..] == PlacesBelow(items[0])[j];
        } else if i < |first| {
          assert NodeIn(items[1..], k + 1, rest[j - |first|]).Some?;
          assert first[i][0] == k && rest[j - |first|][0] > k;
        }
      }
    }
  }

  lemma {:induction false} PlacesBelowVisited(item: Item)
    ensures |PlacesBelow(item)| == |WalkItem(item)| && Distinct(PlacesBelow(item))
    ensures item.Child? ==>
      && (forall i :: 0 <= i < |WalkItem(item)| ==> NodeAt(item.node, PlacesBelow(item)[i]) == Some(WalkItem(item)[i]))
      && (forall place :: NodeAt(item.node, place).Some? ==> place in PlacesBelow(item))
    decreases item
  {
    if item.Child? {
      WalkVisitsEveryPlaceOnce(item.node);
    }
  }

  // ---------- one call ----------

  datatype Call = NotACall | Refused(reason: string) | To(target: string)

  function DeclRefs(nodes: seq<Ast>): seq<Option<Reference>> {
    if nodes == [] then []
    else
      var n := nodes[|nodes| - 1];
      DeclRefs(nodes[..|nodes| - 1]) + (if n.kind == "DeclRefExpr" then [n.referenced] else [])
  }

  /** What the audit makes of one node of the body. */
  function Classify(n: Ast, resolve: string -> Option<string>): Call {
    if n.kind in {"CXXMemberCallExpr", "CXXOperatorCallExpr", "CUDAKernelCallExpr"} then
      Refused("unsupported_call_expression_kind")
    else if n.kind != "CallExpr" then NotACall
    else if !n.plainBegin then Refused("macro_or_missing_call_location")
    else if n.inner == [] || n.inner[0].Other? then Refused("call_callee_shape_unknown")
    else
      var refs := DeclRefs(Walk(n.inner[0].node));
      if |refs| != 1 || refs[0].None? || refs[0].value.kind != "FunctionDecl" || refs[0].value.name.None? then
        Refused("indirect_or_ambiguous_callee")
      else match resolve(refs[0].value.name.value)
        case None => Refused("direct_target_identity_unresolved")
        case Some(t) => To(t)
  }

  ghost predicate OnlyRefAt(nodes: seq<Ast>, i: int) {
    && 0 <= i < |nodes| && nodes[i].kind == "DeclRefExpr"
    && forall j :: 0 <= j < |nodes| && nodes[j].kind == "DeclRefExpr" ==> j == i
  }

  lemma {:induction false} OneRef(nodes: seq<Ast>)
    ensures DeclRefs(nodes) == [] <==> forall i :: 0 <= i < |nodes| ==> nodes[i].kind != "DeclRefExpr"
    ensures |DeclRefs(nodes)| == 1 <==> exists i :: OnlyRefAt(nodes, i)
    ensures forall i :: OnlyRefAt(nodes, i) ==> DeclRefs(nodes) == [nodes[i].referenced]
  {
    if nodes != [] {
      var n := |nodes| - 1;
      OneRef(nodes[..n]);
      assert forall i :: 0 <= i < n ==> nodes[..n][i] == nodes[i];
      if nodes[n].kind == "DeclRefExpr" {
        forall i | OnlyRefAt(nodes, i) ensures DeclRefs(nodes) == [nodes[i].referenced] {
          assert i == n && DeclRefs(nodes[..n]) == [];
        }
        assert DeclRefs(nodes[..n]) == [] ==> OnlyRefAt(nodes, n);
      } else {
        forall i ensures OnlyRefAt(nodes, i) <==> OnlyRefAt(nodes[..n], i) {
          if OnlyRefAt(nodes[..n], i) {
            assert nodes[i].kind == "DeclRefExpr";
          }
        }
      }
    }
  }

  /** Of all places of the tree exactly this one is a reference, and it refers to r. */
  ghost predicate OnlyReference(n: Ast, place: seq<nat>, r: Option<Reference>) {
    && NodeAt(n, place).Some? && NodeAt(n, place).value.kind == "DeclRefExpr"
    && NodeAt(n, place).value.referenced == r
    && forall other :: NodeAt(n, other).Some? && NodeAt(n, other).value.kind == "DeclRefExpr" ==> other == place
  }

  lemma {:induction false} OnlyRefIsAPlace(n: Ast, r: Option<Reference>)
    ensures DeclRefs(Walk(n)) == [r] <==> exists place :: OnlyReference(n, place, r)
  {
    var nodes, places := Walk(n), Places(n);
    WalkVisitsEveryPlaceOnce(n);
    OneRef(nodes);
    hide Walk, Places, NodeAt, DeclRefs;
    if |DeclRefs(nodes)| == 1 {
      var i :| OnlyRefAt(nodes, i);
      forall other | NodeAt(n, other).Some? && NodeAt(n, other).value.kind == "DeclRefExpr"
        ensures other == places[i]
      {
        var j :| 0 <= j < |places| && places[j] == other;
      }
      assert OnlyReference(n, places[i], nodes[i].referenced);
    }
    if place :| OnlyReference(n, place, r) {
      var i :| 0 <= i < |places| && places[i] == place;
      forall j | 0 <= j < |nodes| && nodes[j].kind == "DeclRefExpr" ensures j == i {
        assert NodeAt(n, places[j]) == Some(nodes[j]);
      }
      assert OnlyRefAt(nodes, i);
    }
  }

  predicate Foreign(kind: string) {
    kind == "CXXMemberCallExpr" || kind == "CXXOperatorCallExpr" || kind == "CUDAKernelCallExpr"
  }

  /** A call whose callee expression is there to be read. */
  predicate Readable(n: Ast) {
    n.kind == "CallExpr" && n.plainBegin && n.inner != [] && n.inner[0].Child?
  }

  /** Nothing in the callee expression refers to anything but, in a single place, this function. */
  ghost predicate Names(n: Ast, x: string) {
    Readable(n) && exists place :: OnlyReference(n.inner[0].node, place, Some(Reference("FunctionDecl", Some(x))))
  }

  /** A plain call of one function that the graph resolves to t. */
  ghost predicate DirectCallTo(n: Ast, resolve: string -> Option<string>, t: string) {
    exists x :: Names(n, x) && resolve(x) == Some(t)
  }

  lemma {:induction false} NameIsTheReference(n: Ast, x: string)
    requires Readable(n)
    ensures Names(n, x) <==> DeclRefs(Walk(n.inner[0].node)) == [Some(Reference("FunctionDecl", Some(x)))]
  {
    hide OnlyReference, DeclRefs, Walk;
    OnlyRefIsAPlace(n.inner[0].node, Some(Reference("FunctionDecl", Some(x))));
  }

  lemma {:induction false} NamesWhenReadable(n: Ast, x: string)
    ensures Names(n, x) ==> Readable(n)
  {
  }

  /** Why a node makes the body partial. */
  ghost predicate RefusedFor(n: Ast, resolve: string -> Option<string>, reason: string) {
    if Foreign(n.kind) then reason == "unsupported_call_expression_kind"
    else if n.kind != "CallExpr" then false
    else if !n.plainBegin then reason == "macro_or_missing_call_location"
    else if !Readable(n) then reason == "call_callee_shape_unknown"
    else if forall x :: !Names(n, x) then reason == "indirect_or_ambiguous_callee"
    else (forall t :: !DirectCallTo(n, resolve, t)) && reason == "direct_target_identity_unresolved"
  }

  /** What the audit makes of a node, read off the tree: which calls are direct, and why the others are refused. */
  lemma {:induction false} CallMeaning(n: Ast, resolve: string -> Option<string>)
    ensures forall t :: Classify(n, resolve) == To(t) <==> DirectCallTo(n, resolve, t)
    ensures Classify(n, resolve) == NotACall <==> n.kind != "CallExpr" && !Foreign(n.kind)
    ensures forall reason :: Classify(n, resolve) == Refused(reason) <==> RefusedFor(n, resolve, reason)
  {
    forall x ensures Readable(n) && Names(n, x) ==>
      DeclRefs(Walk(n.inner[0].node)) == [Some(Reference("FunctionDecl", Some(x)))]
    {
      if Readable(n) { NameIsTheReference(n, x); }
    }
    forall x ensures Names(n, x) ==> Readable(n) { NamesWhenReadable(n, x); }
    if Readable(n) {
      var refs := DeclRefs(Walk(n.inner[0].node));
      if |refs| == 1 && refs[0].Some? && refs[0].value.name.Some? && refs[0].value.kind == "FunctionDecl" {
        var x := refs[0].value.name.value;
        NameIsTheReference(n, x);
        assert refs == [Some(Reference("FunctionDecl", Some(x)))];
      }
    }
    hide Names, DeclRefs, Walk;
  }

  // ---------- the whole body ----------

  datatype Diagnostic = MalformedResult | Level(level: string)

  datatype DiagnosticRun = MalformedRun | Results(results: seq<Diagnostic>)

  datatype Candidate = Candidate(subject: string, predicate_: string, target: string, exact: bool)

  predicate Bad(d: Diagnostic) {
    d.MalformedResult? || d.level in {"error", "fatal"}
  }

  function DiagnosticReasons(runs: seq<DiagnosticRun>): set<string> {
    (if exists r :: r in runs && r.MalformedRun? then {"malformed_diagnostic_run"} else {})
    + (if exists r, d :: r in runs && r.Results? && d in r.results && Bad(d) then {"clang_error_diagnostic"} else {})
  }

  predicate HasScope(name: string) {
    exists i :: 0 <= i < |name| - 1 && name[i] == ':' && name[i + 1] == ':'
  }

  function NameReasons(subject: string, name: string): set<string> {
    if name == "" || name == subject || HasScope(name) then {"subject_not_global_c_function"} else {}
  }

  predicate DeclaresSubject(n: Ast, name: string) {
    n.kind == "FunctionDecl" && n.name == Some(name)
  }

  /** A declaration of the subject in the translation unit's own source file. */
  predicate OwnDeclaration(n: Ast, name: string, source: string) {
    DeclaresSubject(n, name) && !n.isStatic
    && (n.location == InFile(source) || n.location.AtOffset?)
  }

  function Compounds(items: seq<Item>): seq<Ast> {
    if items == [] then []
    else
      var it := items[|items| - 1];
      Compounds(items[..|items| - 1]) + (if it.Child? && it.node.kind == "CompoundStmt" then [it.node] else [])
  }

  function Bodies(nodes: seq<Ast>, name: string, source: string): seq<Ast> {
    if nodes == [] then []
    else
      var n := nodes[|nodes| - 1];
      Bodies(nodes[..|nodes| - 1], name, source)
      + (if OwnDeclaration(n, name, source) then Compounds(n.inner) else [])
  }

  function StaticReasons(nodes: seq<Ast>, name: string): set<string> {
    if exists n :: n in nodes && DeclaresSubject(n, name) && n.isStatic
    then {"static_subject_outside_first_issuer"} else {}
  }

  function CallReasons(nodes: seq<Ast>, resolve: string -> Option<string>): set<string> {
    set n | n in nodes && Classify(n, resolve).Refused? :: Classify(n, resolve).reason
  }

  /** Every resolved direct call, counted. */
  function Direct(nodes: seq<Ast>, resolve: string -> Option<string>): map<string, nat> {
    if nodes == [] then map[]
    else
      var before := Direct(nodes[..|nodes| - 1], resolve);
      var c := Classify(nodes[|nodes| - 1], resolve);
      if c.To? then Bump(before, c.target) else before
  }

  /** The exact calls the provider reported for the subject, counted. */
  function Staged(candidates: seq<Candidate>, subject: string): map<string, nat> {
    if candidates == [] then map[]
    else
      var before := Staged(candidates[..|candidates| - 1], subject);
      var c := candidates[|candidates| - 1];
      if c.subject == subject && c.predicate_ == "CALL" && c.exact then Bump(before, c.target) else before
  }

  /** Everything the audit is given. */
  datatype Subject = Subject(
    id: string, name: string, source: string, candidates: seq<Candidate>,
    diagnostics: seq<DiagnosticRun>)

  function Targets(body: Ast, resolve: string -> Option<string>): set<string> {
    Direct(Walk(body), resolve).Keys
  }

  function OutsideReasons(nodes: seq<Ast>, s: Subject): set<string> {
    DiagnosticReasons(s.diagnostics) + NameReasons(s.id, s.name) + StaticReasons(nodes, s.name)
  }

  function InsideReasons(body: Ast, s: Subject, resolve: string -> Option<string>, hasCall: string -> bool)
    : set<string>
  {
    CallReasons(Walk(body), resolve)
    + (if Staged(s.candidates, s.id) != Direct(Walk(body), resolve)
       then {"ast_direct_calls_differ_from_rpp_candidates"} else {})
    + (if exists t :: t in Targets(body, resolve) && !hasCall(t)
       then {"compiler_direct_call_absent_from_canonical_graph"} else {})
  }

  function AuditReasons(
      ast: Ast, s: Subject, resolve: string -> Option<string>, hasCall: string -> bool): set<string> {
    var bodies := Bodies(Walk(ast), s.name, s.source);
    OutsideReasons(Walk(ast), s)
    + (if |bodies| != 1 then {"subject_body_not_unique_in_exact_tu"}
       else InsideReasons(bodies[0], s, resolve, hasCall))
  }

  function AuditCounts(ast: Ast, s: Subject, resolve: string -> Option<string>): map<string, nat> {
    var bodies := Bodies(Walk(ast), s.name, s.source);
    if |bodies| != 1 then map[] else Direct(Walk(bodies[0]), resolve)
  }

  method DiagnosticLoop(runs: seq<DiagnosticRun>) returns (reasons: set<string>)
    ensures reasons == DiagnosticReasons(runs)
  {
    var malformed, failed := false, false;
    for i := 0 to |runs|
      invariant malformed <==> exists r :: r in runs[..i] && r.MalformedRun?
      invariant failed <==> exists r, d :: r in runs[..i] && r.Results? && d in r.results && Bad(d)
    {
      var run := runs[i];
      assert runs[..i + 1] == runs[..i] + [run];
      if run.MalformedRun? {
        malformed := true;
      } else {
        var bad := false;
        for j := 0 to |run.results|
          invariant bad <==> exists d :: d in run.results[..j] && Bad(d)
        {
          assert run.results[..j + 1] == run.results[..j] + [run.results[j]];
          if Bad(run.results[j]) { bad := true; }
        }
        assert run.results[..|run.results|] == run.results;
        if bad { failed := true; }
      }
    }
    assert runs[..|runs|] == runs;
    reasons := (if malformed then {"malformed_diagnostic_run"} else {})
             + (if failed then {"clang_error_diagnostic"} else {});
  }

  /** The search for the subject's body; `reasons` also learns of a static namesake. */
  method FindBodies(nodes: seq<Ast>, name: string, source: string) returns (bodies: seq<Ast>, reasons: set<string>)
    ensures bodies == Bodies(nodes, name, source) && reasons == StaticReasons(nodes, name)
  {
    hide Compounds;
    bodies := [];
    var static_ := false;
    for i := 0 to |nodes|
      invariant bodies == Bodies(nodes[..i], name, source)
      invariant static_ <==> exists n :: n in nodes[..i] && DeclaresSubject(n, name) && n.isStatic
    {
      var n := nodes[i];
      assert nodes[..i + 1] == nodes[..i] + [n];
      assert nodes[..i + 1][..i] == nodes[..i];
      if DeclaresSubject(n, name) {
        if n.isStatic {
          static_ := true;
        } else if n.location == InFile(source) || n.location.AtOffset? {
          bodies := bodies + Compounds(n.inner);
        }
      }
    }
    assert nodes[..|nodes|] == nodes;
    reasons := if static_ then {"static_subject_outside_first_issuer"} else {};
  }

  method CountCalls(nodes: seq<Ast>, resolve: string -> Option<string>)
    returns (direct: map<string, nat>, reasons: set<string>)
    ensures direct == Direct(nodes, resolve) && reasons == CallReasons(nodes, resolve)
  {
    hide Classify;
    direct, reasons := map[], {};
    for i := 0 to |nodes|
      invariant direct == Direct(nodes[..i], resolve) && reasons == CallReasons(nodes[..i], resolve)
    {
      assert nodes[..i + 1] == nodes[..i] + [nodes[i]];
      assert nodes[..i + 1][..i] == nodes[..i];
      match Classify(nodes[i], resolve)
      case NotACall =>
      case Refused(reason) => reasons := reasons + {reason};
      case To(t) => direct := Bump(direct, t);
    }
    assert nodes[..|nodes|] == nodes;
  }

  method CountStaged(candidates: seq<Candidate>, subject: string) returns (staged: map<string, nat>)
    ensures staged == Staged(candidates, subject)
  {
    staged := map[];
    for i := 0 to |candidates|
      invariant staged == Staged(candidates[..i], subject)
    {
      assert candidates[..i + 1][..i] == candidates[..i];
      var c := candidates[i];
      if c.subject == subject && c.predicate_ == "CALL" && c.exact {
        staged := Bump(staged, c.target);
      }
    }
    assert candidates[..|candidates|] == candidates;
  }

  method AuditBody(body: Ast, s: Subject, resolve: string -> Option<string>, hasCall: string -> bool)
    returns (reasons: set<string>, direct: map<string, nat>)
    ensures reasons == InsideReasons(body, s, resolve, hasCall)
    ensures direct == Direct(Walk(body), resolve)
  {
    hide CallReasons, Direct, Walk, Staged;
    direct, reasons := CountCalls(Walk(body), resolve);
    var staged := CountStaged(s.candidates, s.id);
    if staged != direct {
      reasons := reasons + {"ast_direct_calls_differ_from_rpp_candidates"};
    }
    if exists t :: t in direct.Keys && !hasCall(t) {
      reasons := reasons + {"compiler_direct_call_absent_from_canonical_graph"};
    }
  }

  /** The audit as the source runs it; hasCall asks the canonical graph for the subject's call edge. */
  method AuditDirectBody(ast: Ast, s: Subject, resolve: string -> Option<string>, hasCall: string -> bool)
    returns (exhaustive: bool, reasons: set<string>, direct: map<string, nat>)
    ensures reasons == AuditReasons(ast, s, resolve, hasCall) && exhaustive == (reasons == {})
    ensures exhaustive <==> exists body :: Exhaustive(ast, s, resolve, hasCall, body)
    ensures direct == AuditCounts(ast, s, resolve)
  {
    ExhaustiveIff(ast, s, resolve, hasCall);
    hide Exhaustive, DiagnosticReasons, NameReasons, StaticReasons, Direct, Bodies, Walk, InsideReasons;
    reasons := DiagnosticLoop(s.diagnostics);
    reasons := reasons + NameReasons(s.id, s.name);
    var bodies, more := FindBodies(Walk(ast), s.name, s.source);
    reasons := reasons + more;
    if |bodies| != 1 {
      return false, reasons + {"subject_body_not_unique_in_exact_tu"}, map[];
    }
    more, direct := AuditBody(bodies[0], s, resolve, hasCall);
    reasons := reasons + more;
    exhaustive := reasons == {};
  }

  // ---------- what an exhaustive audit means ----------

  ghost predicate CleanRun(runs: seq<DiagnosticRun>) {
    forall r :: r in runs ==>
      r.Results? && forall d :: d in r.results ==> d.Level? && d.level != "error" && d.level != "fatal"
  }

  ghost predicate GlobalName(subject: string, name: string) {
    && name != "" && name != subject
    && forall i, j :: 0 <= i < j < |name| && j == i + 1 ==> name[i] != ':' || name[j] != ':'
  }

  ghost predicate StaticNamesake(ast: Ast, name: string) {
    exists n :: Within(n, ast) && n.kind == "FunctionDecl" && n.name == Some(name) && n.isStatic
  }

  /** The i-th child of the node at this place is a body of the subject, declared in its own file. */
  ghost predicate BodyAt(ast: Ast, name: string, source: string, place: seq<nat>, i: int, body: Ast) {
    && NodeAt(ast, place).Some?
    && var n := NodeAt(ast, place).value;
    && n.kind == "FunctionDecl" && n.name == Some(name) && !n.isStatic
    && (n.location == InFile(source) || n.location == AtOffset)
    && 0 <= i < |n.inner| && n.inner[i] == Child(body) && body.kind == "CompoundStmt"
  }

  ghost predicate OnlyBody(ast: Ast, name: string, source: string, body: Ast) {
    exists place, i :: BodyAt(ast, name, source, place, i, body)
      && forall other, j, b :: BodyAt(ast, name, source, other, j, b) ==> other == place && j == i
  }

  /** Every call anywhere in the body goes, plainly, to a target whose call edge the graph has. */
  ghost predicate BodyIsCovered(body: Ast, resolve: string -> Option<string>, hasCall: string -> bool) {
    forall n :: Within(n, body) ==>
      !Foreign(n.kind) && (n.kind == "CallExpr" ==> exists t :: DirectCallTo(n, resolve, t) && hasCall(t))
  }

  /** The provider reported each target exactly as often as the body calls it. */
  ghost predicate CallsReported(body: Ast, s: Subject, resolve: string -> Option<string>) {
    forall t :: |ReportIndices(s.candidates, s.id, t)| == |PlacesOfCalls(body, resolve, t)|
  }

  ghost function PlacesOfCalls(body: Ast, resolve: string -> Option<string>, t: string): set<seq<nat>> {
    CallPlaces(body, Places(body), resolve, t)
  }

  function At(n: Ast, place: seq<nat>): Ast {
    if NodeAt(n, place).Some? then NodeAt(n, place).value else n
  }

  ghost predicate Exhaustive(
      ast: Ast, s: Subject, resolve: string -> Option<string>, hasCall: string -> bool, body: Ast) {
    && CleanRun(s.diagnostics) && GlobalName(s.id, s.name) && !StaticNamesake(ast, s.name)
    && OnlyBody(ast, s.name, s.source, body)
    && BodyIsCovered(body, resolve, hasCall) && CallsReported(body, s, resolve)
  }

  lemma {:induction false} DiagnosticsMeaning(runs: seq<DiagnosticRun>)
    ensures DiagnosticReasons(runs) == {} <==> CleanRun(runs)
  {
    if DiagnosticReasons(runs) == {} {
      forall r | r in runs
        ensures r.Results? && forall d :: d in r.results ==> d.Level? && d.level != "error" && d.level != "fatal"
      {
        assert !r.MalformedRun?;
        forall d | d in r.results ensures d.Level? && d.level != "error" && d.level != "fatal" {
          assert !Bad(d);
        }
      }
    }
  }

  lemma {:induction false} NameMeaning(subject: string, name: string)
    ensures NameReasons(subject, name) == {} <==> GlobalName(subject, name)
  {
    if i, j :| 0 <= i < j < |name| && j == i + 1 && name[i] == ':' && name[j] == ':' {
      assert HasScope(name);
    }
  }

  lemma {:induction false} StaticMeaning(ast: Ast, name: string)
    ensures StaticReasons(Walk(ast), name) == {} <==> !StaticNamesake(ast, name)
  {
    forall n ensures n in Walk(ast) <==> Within(n, ast) { WalkReachesExactlyTheTree(ast, n); }
    hide Walk, Within;
  }

  ghost predicate CompoundAt(items: seq<Item>, i: int) {
    0 <= i < |items| && items[i].Child? && items[i].node.kind == "CompoundStmt"
  }

  /** Where the compound statements of a list stand. */
  function CompoundSlots(items: seq<Item>): seq<nat> {
    if items == [] then []
    else
      var n := |items| - 1;
      CompoundSlots(items[..n])
      + (if items[n].Child? && items[n].node.kind == "CompoundStmt" then [n] else [])
  }

  ghost predicate SlotsIn(items: seq<Item>, slots: seq<nat>, compounds: seq<Ast>) {
    && |slots| == |compounds| && Distinct(slots)
    && (forall x :: 0 <= x < |slots| ==> CompoundAt(items, slots[x]) && items[slots[x]].node == compounds[x])
    && forall i :: CompoundAt(items, i) ==> i in slots
  }

  lemma {:induction false} SlotsOfCompounds(items: seq<Item>)
    ensures SlotsIn(items, CompoundSlots(items), Compounds(items))
  {
    if items != [] {
      SlotsOfCompounds(items[..|items| - 1]);
    }
  }

  ghost predicate OwnCompound(nodes: seq<Ast>, name: string, source: string, slot: (nat, nat)) {
    slot.0 < |nodes| && OwnDeclaration(nodes[slot.0], name, source) && CompoundAt(nodes[slot.0].inner, slot.1)
  }

  function Beside(k: nat, xs: seq<nat>): (r: seq<(nat, nat)>)
    ensures |r| == |xs| && forall x :: 0 <= x < |xs| ==> r[x] == (k, xs[x])
  {
    seq(|xs|, x requires 0 <= x < |xs| => (k, xs[x]))
  }

  /** Where the bodies come from: a declaration and the position of one of its children. */
  function BodySlots(nodes: seq<Ast>, name: string, source: string): seq<(nat, nat)> {
    if nodes == [] then []
    else
      var n := |nodes| - 1;
      BodySlots(nodes[..n], name, source)
      + (if OwnDeclaration(nodes[n], name, source) then Beside(n, CompoundSlots(nodes[n].inner)) else [])
  }

  ghost predicate SlotsHold(
      nodes: seq<Ast>, name: string, source: string, slots: seq<(nat, nat)>, bodies: seq<Ast>) {
    && |slots| == |bodies|
    && forall x :: 0 <= x < |slots| ==>
         && OwnCompound(nodes, name, source, slots[x])
         && nodes[slots[x].0].inner[slots[x].1].node == bodies[x]
  }

  ghost predicate SlotsCover(nodes: seq<Ast>, name: string, source: string, slots: seq<(nat, nat)>) {
    forall slot :: OwnCompound(nodes, name, source, slot) ==> slot in slots
  }

  ghost predicate SlotsOf(nodes: seq<Ast>, name: string, source: string, slots: seq<(nat, nat)>, bodies: seq<Ast>) {
    && Distinct(slots) && SlotsHold(nodes, name, source, slots, bodies) && SlotsCover(nodes, name, source, slots)
  }

  lemma {:induction false} SlotsOfBodies(nodes: seq<Ast>, name: string, source: string)
    ensures SlotsOf(nodes, name, source, BodySlots(nodes, name, source), Bodies(nodes, name, source))
  {
    if nodes != [] {
      var n := |nodes| - 1;
      SlotsOfBodies(nodes[..n], name, source);
      SlotsOfCompounds(nodes[n].inner);
      hide SlotsOf, SlotsIn, OwnDeclaration, Compounds, CompoundSlots;
      if OwnDeclaration(nodes[n], name, source) {
        MoreSlots(nodes, name, source, BodySlots(nodes[..n], name, source), Bodies(nodes[..n], name, source),
                  CompoundSlots(nodes[n].inner), Compounds(nodes[n].inner));
      } else {
        NoMoreSlots(nodes, name, source, BodySlots(nodes[..n], name, source), Bodies(nodes[..n], name, source));
      }
    }
  }

  lemma {:induction false} NoMoreSlots(
      nodes: seq<Ast>, name: string, source: string, slots: seq<(nat, nat)>, bodies: seq<Ast>)
    requires nodes != [] && SlotsOf(nodes[..|nodes| - 1], name, source, slots, bodies)
    requires !OwnDeclaration(nodes[|nodes| - 1], name, source)
    ensures SlotsOf(nodes, name, source, slots, bodies)
  {
    hide OwnDeclaration, CompoundAt;
    forall slot
      ensures OwnCompound(nodes, name, source, slot) <==> OwnCompound(nodes[..|nodes| - 1], name, source, slot)
    {
    }
  }

  lemma {:induction false} MoreSlots(
      nodes: seq<Ast>, name: string, source: string, slots: seq<(nat, nat)>, bodies: seq<Ast>,
      at: seq<nat>, compounds: seq<Ast>)
    requires nodes != [] && SlotsOf(nodes[..|nodes| - 1], name, source, slots, bodies)
    requires OwnDeclaration(nodes[|nodes| - 1], name, source) && SlotsIn(nodes[|nodes| - 1].inner, at, compounds)
    ensures SlotsOf(nodes, name, source, slots + Beside(|nodes| - 1, at), bodies + compounds)
  {
    var n, more := |nodes| - 1, Beside(|nodes| - 1, at);
    hide OwnDeclaration, OwnCompound, CompoundAt;
    forall x | 0 <= x < |slots| ensures slots[x].0 != n {
      EarlierSlot(nodes, name, source, slots[x]);
    }
    DistinctTogether(slots, at, n);
    MoreSlotsHold(nodes, name, source, slots, bodies, at, compounds);
    MoreSlotsCover(nodes, name, source, slots, at);
  }

  lemma {:induction false} MoreSlotsHold(
      nodes: seq<Ast>, name: string, source: string, slots: seq<(nat, nat)>, bodies: seq<Ast>,
      at: seq<nat>, compounds: seq<Ast>)
    requires nodes != [] && SlotsHold(nodes[..|nodes| - 1], name, source, slots, bodies)
    requires OwnDeclaration(nodes[|nodes| - 1], name, source) && |at| == |compounds|
    requires forall x :: 0 <= x < |at| ==>
      CompoundAt(nodes[|nodes| - 1].inner, at[x]) && nodes[|nodes| - 1].inner[at[x]].node == compounds[x]
    ensures SlotsHold(nodes, name, source, slots + Beside(|nodes| - 1, at), bodies + compounds)
  {
    var n, all := |nodes| - 1, slots + Beside(|nodes| - 1, at);
    hide OwnDeclaration, OwnCompound;
    forall x | 0 <= x < |all|
      ensures OwnCompound(nodes, name, source, all[x])
      ensures all[x].0 < |nodes| && all[x].1 < |nodes[all[x].0].inner| && nodes[all[x].0].inner[all[x].1].Child?
      ensures nodes[all[x].0].inner[all[x].1].node == (bodies + compounds)[x]
    {
      if x < |slots| {
        EarlierSlot(nodes, name, source, slots[x]);
      } else {
        LastSlot(nodes, name, source, at[x - |slots|]);
      }
    }
  }

  lemma {:induction false} MoreSlotsCover(
      nodes: seq<Ast>, name: string, source: string, slots: seq<(nat, nat)>, at: seq<nat>)
    requires nodes != [] && SlotsCover(nodes[..|nodes| - 1], name, source, slots)
    requires OwnDeclaration(nodes[|nodes| - 1], name, source)
    requires forall i :: CompoundAt(nodes[|nodes| - 1].inner, i) ==> i in at
    ensures SlotsCover(nodes, name, source, slots + Beside(|nodes| - 1, at))
  {
    var n, more := |nodes| - 1, Beside(|nodes| - 1, at);
    hide OwnDeclaration, OwnCompound, CompoundAt;
    forall slot: (nat, nat) | OwnCompound(nodes, name, source, slot) ensures slot in slots + more {
      if slot.0 == n {
        LastSlot(nodes, name, source, slot.1);
        assert CompoundAt(nodes[n].inner, slot.1) && slot.1 in at;
        var x :| 0 <= x < |at| && at[x] == slot.1;
        assert more[x] == slot;
      } else {
        EarlierSlot(nodes, name, source, slot);
      }
    }
  }

  lemma {:induction false} EarlierSlot(nodes: seq<Ast>, name: string, source: string, slot: (nat, nat))
    requires nodes != []
    ensures OwnCompound(nodes[..|nodes| - 1], name, source, slot) <==>
            slot.0 != |nodes| - 1 && OwnCompound(nodes, name, source, slot)
    ensures OwnCompound(nodes, name, source, slot) ==>
      slot.0 < |nodes| && slot.1 < |nodes[slot.0].inner| && nodes[slot.0].inner[slot.1].Child?
  {
    hide OwnDeclaration;
  }

  lemma {:induction false} LastSlot(nodes: seq<Ast>, name: string, source: string, i: nat)
    requires nodes != [] && OwnDeclaration(nodes[|nodes| - 1], name, source)
    ensures OwnCompound(nodes, name, source, (|nodes| - 1, i)) <==> CompoundAt(nodes[|nodes| - 1].inner, i)
  {
    hide OwnDeclaration;
  }

  lemma {:induction false} DistinctTogether(slots: seq<(nat, nat)>, at: seq<nat>, n: nat)
    requires Distinct(slots) && Distinct(at) && forall x :: 0 <= x < |slots| ==> slots[x].0 != n
    ensures Distinct(slots + Beside(n, at))
  {
    var all := slots + Beside(n, at);
    forall i, j | 0 <= i < j < |all| ensures all[i] != all[j] {
      assert j < |slots| ==> all[i] == slots[i] && all[j] == slots[j];
    }
  }

  lemma {:induction false} SlotIsBody(ast: Ast, name: string, source: string, slot: (nat, nat))
    requires OwnCompound(Walk(ast), name, source, slot)
    ensures slot.0 < |Walk(ast)| == |Places(ast)| && slot.1 < |Walk(ast)[slot.0].inner|
    ensures Walk(ast)[slot.0].inner[slot.1].Child?
    ensures BodyAt(ast, name, source, Places(ast)[slot.0], slot.1, Walk(ast)[slot.0].inner[slot.1].node)
  {
    WalkVisitsEveryPlaceOnce(ast);
    hide Walk, Places, NodeAt;
    assert NodeAt(ast, Places(ast)[slot.0]) == Some(Walk(ast)[slot.0]);
  }

  lemma {:induction false} BodyIsSlot(ast: Ast, name: string, source: string, place: seq<nat>, i: int, body: Ast)
    returns (slot: (nat, nat))
    requires BodyAt(ast, name, source, place, i, body)
    ensures OwnCompound(Walk(ast), name, source, slot) && slot.1 == i
    ensures slot.0 < |Walk(ast)| == |Places(ast)| && Places(ast)[slot.0] == place
    ensures slot.1 < |Walk(ast)[slot.0].inner| && Walk(ast)[slot.0].inner[slot.1] == Child(body)
  {
    WalkVisitsEveryPlaceOnce(ast);
    hide Walk, Places, NodeAt;
    var k :| 0 <= k < |Places(ast)| && Places(ast)[k] == place;
    assert NodeAt(ast, Places(ast)[k]) == Some(Walk(ast)[k]);
    slot := (k, i);
  }

  lemma {:induction false} BodyMeaning(ast: Ast, name: string, source: string, body: Ast)
    ensures Bodies(Walk(ast), name, source) == [body] <==> OnlyBody(ast, name, source, body)
  {
    var nodes, places := Walk(ast), Places(ast);
    SlotsOfBodies(nodes, name, source);
    WalkVisitsEveryPlaceOnce(ast);
    var slots, bodies := BodySlots(nodes, name, source), Bodies(nodes, name, source);
    hide Walk, Places, NodeAt, Bodies, BodySlots, BodyAt, OwnCompound;
    if bodies == [body] {
      SlotIsBody(ast, name, source, slots[0]);
      forall other, j, b | BodyAt(ast, name, source, other, j, b)
        ensures other == places[slots[0].0] && j == slots[0].1
      {
        var slot := BodyIsSlot(ast, name, source, other, j, b);
      }
      assert BodyAt(ast, name, source, places[slots[0].0], slots[0].1, body);
    }
    if OnlyBody(ast, name, source, body) {
      var place, i :| BodyAt(ast, name, source, place, i, body)
        && forall other, j, b :: BodyAt(ast, name, source, other, j, b) ==> other == place && j == i;
      var slot := BodyIsSlot(ast, name, source, place, i, body);
      forall x | 0 <= x < |slots| ensures slots[x] == slot {
        SlotIsBody(ast, name, source, slots[x]);
        assert places[slots[x].0] == place && slots[x].1 == i;
      }
      assert slot in slots && Elems(slots) == {slot};
      DistinctCount(slots);
      assert bodies == [bodies[0]];
    }
  }

  /** A target is counted once for each call of it. */
  lemma {:induction false} CallsAreCounted(nodes: seq<Ast>, resolve: string -> Option<string>, t: string)
    ensures Count(Direct(nodes, resolve), t) == |CallIndices(nodes, resolve, t, |nodes|)|
    ensures t in Direct(nodes, resolve) ==> Direct(nodes, resolve)[t] > 0
  {
    hide Classify;
    if nodes == [] {
      assert CallIndices(nodes, resolve, t, 0) == {};
    } else {
      var k := |nodes| - 1;
      CallsAreCounted(nodes[..k], resolve, t);
      NextIndex(nodes, resolve, t, |nodes|);
      assert CallIndices(nodes, resolve, t, k) == CallIndices(nodes[..k], resolve, t, k);
      hide CallIndices;
    }
  }

  ghost function ReportIndices(candidates: seq<Candidate>, subject: string, t: string): set<int> {
    set i | 0 <= i < |candidates| && candidates[i] == Candidate(subject, "CALL", t, true)
  }

  lemma {:induction false} ReportsAreCounted(candidates: seq<Candidate>, subject: string, t: string)
    ensures Count(Staged(candidates, subject), t) == |ReportIndices(candidates, subject, t)|
    ensures t in Staged(candidates, subject) ==> Staged(candidates, subject)[t] > 0
  {
    if candidates == [] {
      assert ReportIndices(candidates, subject, t) == {};
    } else {
      ReportsAreCounted(candidates[..|candidates| - 1], subject, t);
      NextReport(candidates, subject, t);
      hide ReportIndices;
    }
  }

  lemma {:induction false} NextReport(candidates: seq<Candidate>, subject: string, t: string)
    requires candidates != []
    ensures |ReportIndices(candidates, subject, t)| == |ReportIndices(candidates[..|candidates| - 1], subject, t)|
              + (if candidates[|candidates| - 1] == Candidate(subject, "CALL", t, true) then 1 else 0)
  {
    var k := |candidates| - 1;
    var before := ReportIndices(candidates[..k], subject, t);
    assert ReportIndices(candidates, subject, t) ==
           before + (if candidates[k] == Candidate(subject, "CALL", t, true) then {k} else {});
    assert k !in before;
  }

  ghost function CallIndices(nodes: seq<Ast>, resolve: string -> Option<string>, t: string, k: nat): set<int>
    requires k <= |nodes|
  {
    set i | 0 <= i < k && Classify(nodes[i], resolve) == To(t)
  }

  ghost function CallPlaces(n: Ast, places: seq<seq<nat>>, resolve: string -> Option<string>, t: string)
    : set<seq<nat>>
  {
    set place | place in places && DirectCallTo(At(n, place), resolve, t)
  }

  /** As many indices of the walk as places of the tree. */
  lemma {:induction false} IndicesArePlaces(n: Ast, resolve: string -> Option<string>, t: string, k: nat)
    requires k <= |Walk(n)| == |Places(n)| && Distinct(Places(n))
    requires forall i :: 0 <= i < |Walk(n)| ==> NodeAt(n, Places(n)[i]) == Some(Walk(n)[i])
    ensures |CallIndices(Walk(n), resolve, t, k)| == |CallPlaces(n, Places(n)[..k], resolve, t)|
  {
    hide Walk, Places, NodeAt, Classify, DirectCallTo;
    if k > 0 {
      var nodes, places := Walk(n), Places(n);
      IndicesArePlaces(n, resolve, t, k - 1);
      CallMeaning(nodes[k - 1], resolve);
      assert At(n, places[k - 1]) == nodes[k - 1];
      NextIndex(nodes, resolve, t, k);
      NextPlace(n, places, resolve, t, k);
    } else {
      assert CallIndices(Walk(n), resolve, t, 0) == {} && CallPlaces(n, [], resolve, t) == {};
    }
  }

  lemma {:induction false} NextIndex(nodes: seq<Ast>, resolve: string -> Option<string>, t: string, k: nat)
    requires 0 < k <= |nodes|
    ensures |CallIndices(nodes, resolve, t, k)| ==
            |CallIndices(nodes, resolve, t, k - 1)| + (if Classify(nodes[k - 1], resolve) == To(t) then 1 else 0)
  {
    hide Classify;
    var before := CallIndices(nodes, resolve, t, k - 1);
    assert CallIndices(nodes, resolve, t, k) ==
           before + (if Classify(nodes[k - 1], resolve) == To(t) then {k - 1} else {});
    assert k - 1 !in before;
  }

  lemma {:induction false} NextPlace(
      n: Ast, places: seq<seq<nat>>, resolve: string -> Option<string>, t: string, k: nat)
    requires 0 < k <= |places| && Distinct(places)
    ensures |CallPlaces(n, places[..k], resolve, t)| == |CallPlaces(n, places[..k - 1], resolve, t)|
              + (if DirectCallTo(At(n, places[k - 1]), resolve, t) then 1 else 0)
  {
    hide DirectCallTo, At;
    var before := CallPlaces(n, places[..k - 1], resolve, t);
    assert places[..k] == places[..k - 1] + [places[k - 1]];
    assert CallPlaces(n, places[..k], resolve, t) ==
           before + (if DirectCallTo(At(n, places[k - 1]), resolve, t) then {places[k - 1]} else {});
    assert places[k - 1] !in before;
  }

  lemma {:induction false} CallsOfBody(body: Ast, resolve: string -> Option<string>, t: string)
    ensures Count(Direct(Walk(body), resolve), t) == |PlacesOfCalls(body, resolve, t)|
    ensures t in Direct(Walk(body), resolve) <==> exists n :: Within(n, body) && DirectCallTo(n, resolve, t)
  {
    var nodes, places := Walk(body), Places(body);
    WalkVisitsEveryPlaceOnce(body);
    CallsAreCounted(nodes, resolve, t);
    IndicesArePlaces(body, resolve, t, |nodes|);
    assert places[..|places|] == places;
    forall n ensures n in nodes <==> Within(n, body) { WalkReachesExactlyTheTree(body, n); }
    hide Walk, Places, NodeAt, Classify, DirectCallTo, Direct, Within;
    forall n ensures DirectCallTo(n, resolve, t) <==> Classify(n, resolve) == To(t) { CallMeaning(n, resolve); }
    var at := CallIndices(nodes, resolve, t, |nodes|);
    if n :| n in nodes && DirectCallTo(n, resolve, t) {
      var i :| 0 <= i < |nodes| && nodes[i] == n;
      assert i in at;
    }
    if t in Direct(nodes, resolve) {
      assert at != {};
      var i :| i in at;
      assert nodes[i] in nodes;
    }
  }

  lemma {:induction false} SameCounts(a: map<string, nat>, b: map<string, nat>)
    requires forall t :: (t in a ==> a[t] > 0) && (t in b ==> b[t] > 0)
    ensures a == b <==> forall t :: Count(a, t) == Count(b, t)
  {
    if forall t :: Count(a, t) == Count(b, t) {
      forall t ensures t in a <==> t in b {
        assert Count(a, t) == Count(b, t);
      }
      assert forall t :: t in a ==> Count(a, t) == a[t] && Count(b, t) == b[t];
    }
  }

  lemma {:induction false} ReportsMeaning(body: Ast, s: Subject, resolve: string -> Option<string>)
    ensures Staged(s.candidates, s.id) == Direct(Walk(body), resolve) <==> CallsReported(body, s, resolve)
  {
    var a, b := Staged(s.candidates, s.id), Direct(Walk(body), resolve);
    forall t
      ensures (t in a ==> a[t] > 0) && (t in b ==> b[t] > 0)
      ensures Count(a, t) == |ReportIndices(s.candidates, s.id, t)| && Count(b, t) == |PlacesOfCalls(body, resolve, t)|
    {
      ReportsAreCounted(s.candidates, s.id, t);
      CallsAreCounted(Walk(body), resolve, t);
      CallsOfBody(body, resolve, t);
    }
    hide Staged, Direct, Walk, ReportIndices, PlacesOfCalls, Count;
    SameCounts(a, b);
  }

  lemma {:induction false} RefusalIsListed(nodes: seq<Ast>, resolve: string -> Option<string>)
    ensures forall reason :: reason in CallReasons(nodes, resolve) <==>
      exists n :: n in nodes && Classify(n, resolve) == Refused(reason)
  {
    hide Classify;
    forall reason | exists n :: n in nodes && Classify(n, resolve) == Refused(reason)
      ensures reason in CallReasons(nodes, resolve)
    {
      var n :| n in nodes && Classify(n, resolve) == Refused(reason);
      assert Classify(n, resolve).reason == reason;
    }
  }

  lemma {:induction false} CoverMeaning(
      body: Ast, resolve: string -> Option<string>, hasCall: string -> bool)
    ensures (CallReasons(Walk(body), resolve) == {} && forall t :: t in Targets(body, resolve) ==> hasCall(t))
            <==> BodyIsCovered(body, resolve, hasCall)
  {
    forall n ensures n in Walk(body) <==> Within(n, body) { WalkReachesExactlyTheTree(body, n); }
    RefusalIsListed(Walk(body), resolve);
    hide Walk, Classify, CallReasons, Within, Direct, DirectCallTo, Foreign;
    forall n
      ensures forall t :: Classify(n, resolve) == To(t) <==> DirectCallTo(n, resolve, t)
      ensures Classify(n, resolve) == NotACall <==> n.kind != "CallExpr" && !Foreign(n.kind)
      ensures Foreign(n.kind) ==> Classify(n, resolve).Refused?
    {
      CallMeaning(n, resolve);
      ForeignIsRefused(n, resolve);
    }
    forall t ensures t in Targets(body, resolve) <==> exists n :: Within(n, body) && DirectCallTo(n, resolve, t) {
      CallsOfBody(body, resolve, t);
    }
    if BodyIsCovered(body, resolve, hasCall) {
      forall reason ensures reason !in CallReasons(Walk(body), resolve) {
        if n :| n in Walk(body) && Classify(n, resolve) == Refused(reason) {
          assert Within(n, body);
        }
      }
      forall t | t in Targets(body, resolve) ensures hasCall(t) {
        var n :| Within(n, body) && DirectCallTo(n, resolve, t);
        assert Classify(n, resolve) == To(t);
      }
    } else {
      var n :| Within(n, body) &&
        (Foreign(n.kind) || (n.kind == "CallExpr" && forall t :: DirectCallTo(n, resolve, t) ==> !hasCall(t)));
      match Classify(n, resolve)
      case NotACall =>
      case Refused(reason) => assert reason in CallReasons(Walk(body), resolve);
      case To(t) => assert t in Targets(body, resolve);
    }
  }

  lemma {:induction false} ForeignIsRefused(n: Ast, resolve: string -> Option<string>)
    ensures Foreign(n.kind) ==> Classify(n, resolve).Refused?
  {
  }

  /**
   The audit finds no reason exactly when the run had no errors, the subject is a global
   function with a single body in its own file, and every call in that body, as the tree
   has it, is a plain call of one function whose edge is in the graph, reported by the
   provider as often as it is there.
   */
  lemma {:induction false} ExhaustiveIff(
      ast: Ast, s: Subject, resolve: string -> Option<string>, hasCall: string -> bool)
    ensures AuditReasons(ast, s, resolve, hasCall) == {} <==> exists body :: Exhaustive(ast, s, resolve, hasCall, body)
    ensures forall body :: Exhaustive(ast, s, resolve, hasCall, body) ==> Bodies(Walk(ast), s.name, s.source) == [body]
  {
    var bodies := Bodies(Walk(ast), s.name, s.source);
    DiagnosticsMeaning(s.diagnostics);
    NameMeaning(s.id, s.name);
    StaticMeaning(ast, s.name);
    forall body ensures bodies == [body] <==> OnlyBody(ast, s.name, s.source, body) {
      BodyMeaning(ast, s.name, s.source, body);
    }
    hide Walk, Bodies, DiagnosticReasons, NameReasons, StaticReasons, InsideReasons,
      CleanRun, GlobalName, StaticNamesake, OnlyBody, BodyIsCovered, CallsReported;
    if |bodies| == 1 {
      InsideMeaning(bodies[0], s, resolve, hasCall);
      assert bodies == [bodies[0]];
      assert AuditReasons(ast, s, resolve, hasCall) == {} <==> Exhaustive(ast, s, resolve, hasCall, bodies[0]);
    }
  }

  ghost predicate OutsideReason(ast: Ast, s: Subject, reason: string) {
    || (reason == "malformed_diagnostic_run" && exists r :: r in s.diagnostics && r.MalformedRun?)
    || (reason == "clang_error_diagnostic" && SomeErrorReported(s.diagnostics))
    || (reason == "subject_not_global_c_function" && !GlobalName(s.id, s.name))
    || (reason == "static_subject_outside_first_issuer" && StaticNamesake(ast, s.name))
  }

  ghost predicate SomeErrorReported(runs: seq<DiagnosticRun>) {
    exists r, d :: r in runs && r.Results? && d in r.results
                   && (d == MalformedResult || d == Level("error") || d == Level("fatal"))
  }

  lemma {:induction false} OutsideListed(ast: Ast, s: Subject, reason: string)
    ensures reason in OutsideReasons(Walk(ast), s) <==> OutsideReason(ast, s, reason)
  {
    NameMeaning(s.id, s.name);
    StaticMeaning(ast, s.name);
    DiagnosticsListed(s.diagnostics, reason);
    hide Walk, GlobalName, StaticNamesake, HasScope, DiagnosticReasons, SomeErrorReported;
  }

  lemma {:induction false} DiagnosticsListed(runs: seq<DiagnosticRun>, reason: string)
    ensures reason in DiagnosticReasons(runs) <==>
            || (reason == "malformed_diagnostic_run" && exists r :: r in runs && r.MalformedRun?)
            || (reason == "clang_error_diagnostic" && SomeErrorReported(runs))
  {
    forall d: Diagnostic ensures Bad(d) <==> d == MalformedResult || d == Level("error") || d == Level("fatal") {
      assert d.Level? ==> d == Level(d.level);
    }
    if SomeErrorReported(runs) {
      var r, d :| r in runs && r.Results? && d in r.results
                  && (d == MalformedResult || d == Level("error") || d == Level("fatal"));
      assert Bad(d);
    }
  }

  /** The reasons given, one by one. */
  lemma {:induction false} ReasonsListed(
      ast: Ast, s: Subject, resolve: string -> Option<string>, hasCall: string -> bool, reason: string)
    ensures reason in AuditReasons(ast, s, resolve, hasCall) <==>
      || OutsideReason(ast, s, reason)
      || (reason == "subject_body_not_unique_in_exact_tu" && forall body :: !OnlyBody(ast, s.name, s.source, body))
      || exists body :: OnlyBody(ast, s.name, s.source, body) && BodyReason(body, s, resolve, hasCall, reason)
  {
    var bodies := Bodies(Walk(ast), s.name, s.source);
    OutsideListed(ast, s, reason);
    forall body ensures bodies == [body] <==> OnlyBody(ast, s.name, s.source, body) {
      BodyMeaning(ast, s.name, s.source, body);
    }
    hide Walk, Bodies, InsideReasons, OutsideReasons, OutsideReason, BodyReason, OnlyBody;
    if |bodies| == 1 {
      InsideListed(bodies[0], s, resolve, hasCall);
      assert bodies == [bodies[0]];
    }
  }

  ghost predicate BodyReason(
      body: Ast, s: Subject, resolve: string -> Option<string>, hasCall: string -> bool, reason: string) {
    || (exists n :: Within(n, body) && RefusedFor(n, resolve, reason))
    || (reason == "ast_direct_calls_differ_from_rpp_candidates" && !CallsReported(body, s, resolve))
    || (reason == "compiler_direct_call_absent_from_canonical_graph"
        && exists n, t :: Within(n, body) && DirectCallTo(n, resolve, t) && !hasCall(t))
  }

  lemma {:induction false} InsideListed(
      body: Ast, s: Subject, resolve: string -> Option<string>, hasCall: string -> bool)
    ensures forall reason :: reason in InsideReasons(body, s, resolve, hasCall) <==>
              BodyReason(body, s, resolve, hasCall, reason)
  {
    ReportsMeaning(body, s, resolve);
    RefusalIsListed(Walk(body), resolve);
    forall n ensures n in Walk(body) <==> Within(n, body) { WalkReachesExactlyTheTree(body, n); }
    hide Walk, Classify, CallReasons, Within, Direct, DirectCallTo, Staged, CallsReported, RefusedFor;
    forall n, reason ensures Classify(n, resolve) == Refused(reason) <==> RefusedFor(n, resolve, reason) {
      CallMeaning(n, resolve);
    }
    forall t ensures t in Targets(body, resolve) <==> exists n :: Within(n, body) && DirectCallTo(n, resolve, t) {
      CallsOfBody(body, resolve, t);
    }
  }

  lemma {:induction false} InsideMeaning(
      body: Ast, s: Subject, resolve: string -> Option<string>, hasCall: string -> bool)
    ensures InsideReasons(body, s, resolve, hasCall) == {} <==>
            BodyIsCovered(body, resolve, hasCall) && CallsReported(body, s, resolve)
  {
    ReportsMeaning(body, s, resolve);
    CoverMeaning(body, resolve, hasCall);
    hide Walk, CallReasons, Targets, Staged, Direct, BodyIsCovered, CallsReported;
  }
}
