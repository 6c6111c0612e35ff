/** Which files an index run must redo: the include fixpoint and the users of changed definitions. */
module DependencyClosure {
  import opened Prelude

  datatype PathOps = PathOps(resolve: (string, string) -> string, basename: string -> string)

  datatype Include = Include(file: string, target: string)
  datatype Definition = Definition(kind: string, name: string, qname: string, language: string, meta: string)
  datatype Prepared = Prepared(definitions: seq<Definition>, digest: string)
  datatype Callsite = Callsite(file: string, callee: string, candidates: set<string>)
  datatype Pending = Pending(file: string, src: string, dst: string)
  datatype Import = Import(file: string, moduleQname: string)

  /** The rows of the parent snapshot. */
  datatype Manifest = Manifest(
    digests: map<string, string>, nodes: map<string, seq<Definition>>, includes: seq<Include>,
    callsites: seq<Callsite>, pending: seq<Pending>, imports: seq<Import>)

  datatype Reason =
    | SourceOrContextDelta
    | Includes(target: string)
    | Symbol(callee: string)
    | SymbolicEdge
    | Imports(moduleQname: string)

  type Reasons = map<string, set<Reason>>

  function Add(reasons: Reasons, file: string, reason: Reason): Reasons {
    reasons[file := (if file in reasons then reasons[file] else {}) + {reason}]
  }

  // ---------- the include rule ----------

  /** The row includes an affected file: by resolved path, or by basename as the resolver falls back. */
  predicate Matches(ops: PathOps, inc: Include, affected: set<string>) {
    ops.resolve(inc.file, inc.target) in affected ||
    exists p :: p in affected && ops.basename(p) == ops.basename(inc.target)
  }

  /** The row names the file p: it resolves to p, or shares its last component with p. */
  ghost predicate NamesFile(ops: PathOps, inc: Include, p: string) {
    p == ops.resolve(inc.file, inc.target) || ops.basename(inc.target) == ops.basename(p)
  }

  lemma {:induction false} MatchesIff(ops: PathOps, inc: Include, s: set<string>)
    ensures Matches(ops, inc, s) <==> exists p :: p in s && NamesFile(ops, inc, p)
  {
    if p :| p in s && NamesFile(ops, inc, p) {
      assert ops.basename(p) == ops.basename(inc.target) || p == ops.resolve(inc.file, inc.target);
    }
  }

  /** Whoever names a file of the set is in it. */
  ghost predicate Closed(ops: PathOps, includes: seq<Include>, s: set<string>) {
    forall k, p :: 0 <= k < |includes| && p in s && NamesFile(ops, includes[k], p) ==> includes[k].file in s
  }

  lemma {:induction false} ClosedIff(ops: PathOps, includes: seq<Include>, s: set<string>)
    ensures Closed(ops, includes, s) <==>
            forall k :: 0 <= k < |includes| && Matches(ops, includes[k], s) ==> includes[k].file in s
  {
    forall k | 0 <= k < |includes|
      ensures Matches(ops, includes[k], s) <==> exists p :: p in s && NamesFile(ops, includes[k], p)
    {
      MatchesIff(ops, includes[k], s);
    }
    hide Matches, NamesFile;
  }

  /** `s` is the least set with the seeds that is closed under the include rule. */
  ghost predicate IsLeastClosed(ops: PathOps, includes: seq<Include>, seeds: set<string>, s: set<string>) {
    && seeds <= s && Closed(ops, includes, s)
    && forall t: set<string> :: seeds <= t && Closed(ops, includes, t) ==> s <= t
  }

  /** The order of the rows does not matter: the least closed set is unique. */
  lemma {:induction false} LeastClosedIgnoresOrder(
      ops: PathOps, a: seq<Include>, b: seq<Include>, seeds: set<string>, s: set<string>, t: set<string>)
    requires multiset(a) == multiset(b)
    requires IsLeastClosed(ops, a, seeds, s) && IsLeastClosed(ops, b, seeds, t)
    ensures s == t
  {
    forall x: set<string> ensures Closed(ops, a, x) <==> Closed(ops, b, x) {
      forall k | 0 <= k < |a| ensures a[k] in b { assert a[k] in multiset(a); }
      forall k | 0 <= k < |b| ensures b[k] in a { assert b[k] in multiset(b); }
    }
  }

  ghost function Files(includes: seq<Include>): set<string> {
    set k | 0 <= k < |includes| :: includes[k].file
  }

  /** A file gained an include reason only from a row that names an affected file. */
  ghost predicate IncludeReasonsSound(
      ops: PathOps, includes: seq<Include>, dependents: set<string>, before: Reasons, after: Reasons) {
    && (forall f :: f in before ==> f in after && before[f] <= after[f])
    && forall f, r :: f in after && r in after[f] && !(f in before && r in before[f]) ==>
         r.Includes? && exists k ::
           0 <= k < |includes| && includes[k] == Include(f, r.target) && NamesOneOf(ops, includes[k], dependents)
  }

  ghost predicate NamesOneOf(ops: PathOps, inc: Include, s: set<string>) {
    exists p :: p in s && NamesFile(ops, inc, p)
  }

  /** The while-changed loop over the include rows. */
  method IncludeClosure(ops: PathOps, includes: seq<Include>, seeds: set<string>, reasons: Reasons)
    returns (dependents: set<string>, reasons': Reasons)
    requires seeds <= reasons.Keys
    ensures IsLeastClosed(ops, includes, seeds, dependents)
    ensures reasons'.Keys == reasons.Keys + dependents
    ensures IncludeReasonsSound(ops, includes, dependents, reasons, reasons')
  {
    dependents, reasons' := seeds, reasons;
    var changed := true;
    while changed
      invariant seeds <= dependents <= seeds + Files(includes)
      invariant forall t: set<string> :: seeds <= t && Closed(ops, includes, t) ==> dependents <= t
      invariant !changed ==> Closed(ops, includes, dependents)
      invariant reasons'.Keys == reasons.Keys + dependents
      invariant IncludeReasonsSound(ops, includes, dependents, reasons, reasons')
      decreases seeds + Files(includes) - dependents, changed
    {
      changed := false;
      hide NamesFile;
      ghost var start := dependents;
      for i := 0 to |includes|
        invariant start <= dependents <= seeds + Files(includes)
        invariant forall t: set<string> :: seeds <= t && Closed(ops, includes, t) ==> dependents <= t
        invariant !changed ==> dependents == start
        invariant changed ==> start < dependents
        invariant !changed ==> forall k :: 0 <= k < i && Matches(ops, includes[k], dependents) ==>
                  includes[k].file in dependents
        invariant reasons'.Keys == reasons.Keys + dependents
        invariant IncludeReasonsSound(ops, includes, dependents, reasons, reasons')
      {
        var inc := includes[i];
        MatchesIff(ops, inc, dependents);
        if Matches(ops, inc, dependents) && inc.file !in dependents {
          forall t: set<string> | seeds <= t && Closed(ops, includes, t) ensures inc.file in t {
          }
          ReasonForIncluder(ops, includes, dependents, reasons, reasons', i);
          dependents := dependents + {inc.file};
          reasons' := Add(reasons', inc.file, Includes(inc.target));
          changed := true;
        }
      }
      ClosedIff(ops, includes, dependents);
    }
  }

  lemma {:induction false} ReasonForIncluder(
      ops: PathOps, includes: seq<Include>, dependents: set<string>, before: Reasons, after: Reasons, i: nat)
    requires i < |includes| && NamesOneOf(ops, includes[i], dependents)
    requires IncludeReasonsSound(ops, includes, dependents, before, after)
    ensures IncludeReasonsSound(ops, includes, dependents + {includes[i].file}, before,
                                Add(after, includes[i].file, Includes(includes[i].target)))
  {
    var grown, added := dependents + {includes[i].file}, Add(after, includes[i].file, Includes(includes[i].target));
    forall f, r | f in added && r in added[f] && !(f in before && r in before[f])
      ensures r.Includes? && exists k ::
                0 <= k < |includes| && includes[k] == Include(f, r.target) && NamesOneOf(ops, includes[k], grown)
    {
      if f in after && r in after[f] {
        var k :| 0 <= k < |includes| && includes[k] == Include(f, r.target) && NamesOneOf(ops, includes[k], dependents);
      }
    }
  }

  // ---------- users of changed definitions ----------

  /** Seeds whose fresh provider output differs from the persisted one. */
  function SemanticSeeds(m: Manifest, seeds: set<string>, prepared: map<string, Prepared>): set<string> {
    set p | p in seeds && (p !in prepared || p !in m.digests || m.digests[p] != prepared[p].digest)
  }

  predicate Structural(kind: string) {
    kind in {"FILE", "DIRECTORY", "REPOSITORY"}
  }

  ghost function OldDefinitions(m: Manifest, files: set<string>): set<Definition> {
    set p, d | p in files && p in m.nodes && d in m.nodes[p]
                && d.kind != "FILE" && d.kind != "DIRECTORY" && d.kind != "REPOSITORY" :: d
  }

  ghost function NewDefinitions(prepared: map<string, Prepared>, files: set<string>): set<Definition> {
    set p, d | p in files && p in prepared && d in prepared[p].definitions :: d
  }

  ghost function ChangedDefinitions(m: Manifest, prepared: map<string, Prepared>, files: set<string>): set<Definition> {
    var a, b := OldDefinitions(m, files), NewDefinitions(prepared, files);
    (a - b) + (b - a)
  }

  datatype Changed = Changed(names: set<string>, qnames: set<string>)

  predicate CallsChanged(c: Callsite, ch: Changed) {
    c.callee in ch.names || c.candidates * ch.qnames != {}
  }

  predicate PendingChanged(p: Pending, ch: Changed) {
    p.src in ch.names + ch.qnames || p.dst in ch.names + ch.qnames
  }

  predicate ImportsChanged(i: Import, ch: Changed) {
    i.moduleQname in ch.qnames
  }

  /** A changed definition is called by name, or is one of the candidates. */
  ghost predicate CallTouches(c: Callsite, ch: Changed) {
    c.callee in ch.names || exists q :: q in ch.qnames && q in c.candidates
  }

  /** One of the two ends is the name or the qualified name of a changed definition. */
  ghost predicate EdgeTouches(p: Pending, ch: Changed) {
    exists x :: (x == p.src || x == p.dst) && (x in ch.names || x in ch.qnames)
  }

  lemma {:induction false} TouchesIff(ch: Changed)
    ensures forall c :: CallsChanged(c, ch) <==> CallTouches(c, ch)
    ensures forall p :: PendingChanged(p, ch) <==> EdgeTouches(p, ch)
  {
    forall c ensures CallsChanged(c, ch) <==> CallTouches(c, ch) {
      if q :| q in ch.qnames && q in c.candidates {
        assert q in c.candidates * ch.qnames;
      }
    }
    forall p ensures PendingChanged(p, ch) <==> EdgeTouches(p, ch) {
      assert p.src in ch.names + ch.qnames <==> p.src in ch.names || p.src in ch.qnames;
    }
  }

  ghost function SymbolUsers(m: Manifest, ch: Changed): set<string> {
    (set k | 0 <= k < |m.callsites| && CallTouches(m.callsites[k], ch) :: m.callsites[k].file) +
    (set k | 0 <= k < |m.pending| && EdgeTouches(m.pending[k], ch) :: m.pending[k].file) +
    (set k | 0 <= k < |m.imports| && m.imports[k].moduleQname in ch.qnames :: m.imports[k].file)
  }

  method CollectChanged(m: Manifest, prepared: map<string, Prepared>, files: set<string>) returns (ch: Changed)
    ensures ChangedNames(m, prepared, files, ch)
  {
    var before: set<Definition> := {};
    var after: set<Definition> := {};
    var todo := files;
    while todo != {}
      invariant todo <= files
      invariant before == OldDefinitions(m, files - todo)
      invariant after == NewDefinitions(prepared, files - todo)
      decreases todo
    {
      var p :| p in todo;
      todo := todo - {p};
      if p in m.nodes {
        before := before + set d | d in m.nodes[p] && !Structural(d.kind);
      }
      if p in prepared {
        after := after + set d | d in prepared[p].definitions;
      }
    }
    assert files - {} == files;
    var changed := (before - after) + (after - before);
    ch := Changed(set d | d in changed :: d.name, set d | d in changed :: d.qname);
  }

  /** What each recorded reason claims of the file it is recorded for. */
  ghost predicate Justified(
      ops: PathOps, m: Manifest, seeds: set<string>, dependents: set<string>, ch: Changed, f: string, r: Reason) {
    match r
    case SourceOrContextDelta => f in seeds
    case Includes(t) =>
      exists k :: 0 <= k < |m.includes| && m.includes[k] == Include(f, t) && NamesOneOf(ops, m.includes[k], dependents)
    case Symbol(c) =>
      exists k :: 0 <= k < |m.callsites| && m.callsites[k].file == f && m.callsites[k].callee == c &&
        CallTouches(m.callsites[k], ch)
    case SymbolicEdge => exists k :: 0 <= k < |m.pending| && m.pending[k].file == f && EdgeTouches(m.pending[k], ch)
    case Imports(q) => q in ch.qnames && exists k :: 0 <= k < |m.imports| && m.imports[k] == Import(f, q)
  }

  ghost predicate AllJustified(
      ops: PathOps, m: Manifest, seeds: set<string>, dependents: set<string>, ch: Changed, reasons: Reasons) {
    forall f, r :: f in reasons && r in reasons[f] ==> Justified(ops, m, seeds, dependents, ch, f, r)
  }

  lemma {:induction false} AddKeepsJustified(
      ops: PathOps, m: Manifest, seeds: set<string>, dependents: set<string>, ch: Changed, reasons: Reasons,
      f: string, r: Reason)
    requires AllJustified(ops, m, seeds, dependents, ch, reasons)
    requires Justified(ops, m, seeds, dependents, ch, f, r)
    ensures AllJustified(ops, m, seeds, dependents, ch, Add(reasons, f, r))
  {
    hide Justified;
  }

  ghost predicate Grown(affected: set<string>, before: Reasons, after: Reasons) {
    after.Keys == affected && forall f :: f in before ==> f in after && before[f] <= after[f]
  }

  method AddCallers(ops: PathOps, m: Manifest, ghost seeds: set<string>, ghost dependents: set<string>, ch: Changed,
                    affected: set<string>, reasons: Reasons)
    returns (affected': set<string>, reasons': Reasons)
    requires reasons.Keys == affected && AllJustified(ops, m, seeds, dependents, ch, reasons)
    ensures affected' == affected + set k |
              0 <= k < |m.callsites| && CallTouches(m.callsites[k], ch) :: m.callsites[k].file
    ensures Grown(affected', reasons, reasons') && AllJustified(ops, m, seeds, dependents, ch, reasons')
  {
    TouchesIff(ch);
    hide AllJustified, Justified, CallTouches, CallsChanged;
    affected', reasons' := affected, reasons;
    for i := 0 to |m.callsites|
      invariant affected' == affected + set k | 0 <= k < i && CallTouches(m.callsites[k], ch) :: m.callsites[k].file
      invariant Grown(affected', reasons, reasons') && AllJustified(ops, m, seeds, dependents, ch, reasons')
    {
      var c := m.callsites[i];
      if CallsChanged(c, ch) {
        CallerJustified(ops, m, seeds, dependents, ch, i);
        AddKeepsJustified(ops, m, seeds, dependents, ch, reasons', c.file, Symbol(c.callee));
        affected' := affected' + {c.file};
        reasons' := Add(reasons', c.file, Symbol(c.callee));
      }
    }
  }

  lemma {:induction false} CallerJustified(
      ops: PathOps, m: Manifest, seeds: set<string>, dependents: set<string>, ch: Changed, i: nat)
    requires i < |m.callsites| && CallTouches(m.callsites[i], ch)
    ensures Justified(ops, m, seeds, dependents, ch, m.callsites[i].file, Symbol(m.callsites[i].callee))
  {
  }

  method AddPendingUsers(
      ops: PathOps, m: Manifest, ghost seeds: set<string>, ghost dependents: set<string>, ch: Changed,
                         affected: set<string>, reasons: Reasons)
    returns (affected': set<string>, reasons': Reasons)
    requires reasons.Keys == affected && AllJustified(ops, m, seeds, dependents, ch, reasons)
    ensures affected' == affected + set k |
              0 <= k < |m.pending| && EdgeTouches(m.pending[k], ch) :: m.pending[k].file
    ensures Grown(affected', reasons, reasons') && AllJustified(ops, m, seeds, dependents, ch, reasons')
  {
    TouchesIff(ch);
    hide AllJustified, Justified, EdgeTouches, PendingChanged;
    affected', reasons' := affected, reasons;
    for i := 0 to |m.pending|
      invariant affected' == affected + set k | 0 <= k < i && EdgeTouches(m.pending[k], ch) :: m.pending[k].file
      invariant Grown(affected', reasons, reasons') && AllJustified(ops, m, seeds, dependents, ch, reasons')
    {
      var p := m.pending[i];
      if PendingChanged(p, ch) {
        PendingJustified(ops, m, seeds, dependents, ch, i);
        AddKeepsJustified(ops, m, seeds, dependents, ch, reasons', p.file, SymbolicEdge);
        affected' := affected' + {p.file};
        reasons' := Add(reasons', p.file, SymbolicEdge);
      }
    }
  }

  lemma {:induction false} PendingJustified(
      ops: PathOps, m: Manifest, seeds: set<string>, dependents: set<string>, ch: Changed, i: nat)
    requires i < |m.pending| && EdgeTouches(m.pending[i], ch)
    ensures Justified(ops, m, seeds, dependents, ch, m.pending[i].file, SymbolicEdge)
  {
  }

  method AddImporters(ops: PathOps, m: Manifest, ghost seeds: set<string>, ghost dependents: set<string>, ch: Changed,
                      affected: set<string>, reasons: Reasons)
    returns (affected': set<string>, reasons': Reasons)
    requires reasons.Keys == affected && AllJustified(ops, m, seeds, dependents, ch, reasons)
    ensures affected' == affected + set k |
              0 <= k < |m.imports| && m.imports[k].moduleQname in ch.qnames :: m.imports[k].file
    ensures Grown(affected', reasons, reasons') && AllJustified(ops, m, seeds, dependents, ch, reasons')
  {
    hide AllJustified, Justified;
    affected', reasons' := affected, reasons;
    for i := 0 to |m.imports|
      invariant affected' == affected + set k | 0 <= k < i && m.imports[k].moduleQname in ch.qnames :: m.imports[k].file
      invariant Grown(affected', reasons, reasons') && AllJustified(ops, m, seeds, dependents, ch, reasons')
    {
      var imp := m.imports[i];
      if ImportsChanged(imp, ch) {
        ImporterJustified(ops, m, seeds, dependents, ch, i);
        AddKeepsJustified(ops, m, seeds, dependents, ch, reasons', imp.file, Imports(imp.moduleQname));
        affected' := affected' + {imp.file};
        reasons' := Add(reasons', imp.file, Imports(imp.moduleQname));
      }
    }
  }

  lemma {:induction false} ImporterJustified(
      ops: PathOps, m: Manifest, seeds: set<string>, dependents: set<string>, ch: Changed, i: nat)
    requires i < |m.imports| && m.imports[i].moduleQname in ch.qnames
    ensures Justified(ops, m, seeds, dependents, ch, m.imports[i].file, Imports(m.imports[i].moduleQname))
  {
  }

  ghost predicate ChangedNames(m: Manifest, prepared: map<string, Prepared>, files: set<string>, ch: Changed) {
    && ch.names == (set d | d in ChangedDefinitions(m, prepared, files) :: d.name)
    && ch.qnames == (set d | d in ChangedDefinitions(m, prepared, files) :: d.qname)
  }

  lemma {:induction false} InitialReasonsJustified(
      ops: PathOps, m: Manifest, seeds: set<string>, dependents: set<string>, ch: Changed, before: Reasons,
      after: Reasons)
    requires before == map p | p in seeds :: {SourceOrContextDelta}
    requires IncludeReasonsSound(ops, m.includes, dependents, before, after)
    ensures AllJustified(ops, m, seeds, dependents, ch, after)
  {
    forall f, r | f in after && r in after[f] ensures Justified(ops, m, seeds, dependents, ch, f, r) {
      if f in before && r in before[f] {
        assert f in seeds && r == SourceOrContextDelta;
      } else {
        assert r.Includes?;
      }
    }
  }

  /** The three loops over the users of changed definitions. */
  method AddUsers(ops: PathOps, m: Manifest, ghost seeds: set<string>, ghost dependents: set<string>, ch: Changed,
                  affected: set<string>, reasons: Reasons)
    returns (affected': set<string>, reasons': Reasons)
    requires reasons.Keys == affected && AllJustified(ops, m, seeds, dependents, ch, reasons)
    ensures affected' == affected + SymbolUsers(m, ch)
    ensures Grown(affected', reasons, reasons') && AllJustified(ops, m, seeds, dependents, ch, reasons')
  {
    hide AllJustified, CallTouches, EdgeTouches;
    var a1, x1 := AddCallers(ops, m, seeds, dependents, ch, affected, reasons);
    var a2, x2 := AddPendingUsers(ops, m, seeds, dependents, ch, a1, x1);
    affected', reasons' := AddImporters(ops, m, seeds, dependents, ch, a2, x2);
  }

  lemma {:induction false} NoUsers(m: Manifest, ch: Changed)
    requires ch.names == {} && ch.qnames == {}
    ensures SymbolUsers(m, ch) == {}
  {
  }

  /**
   The whole closure. The affected set is the seeds, the least include closure of
   the semantic seeds, and the users of changed definitions; exactly the affected
   files carry reasons, and every reason is justified.
   */
  method Close(ops: PathOps, m: Manifest, seeds: set<string>, prepared: map<string, Prepared>)
    returns (affected: set<string>, reasons: Reasons, ghost semantic: set<string>, ghost dependents: set<string>,
             ghost ch: Changed)
    ensures forall p :: p in semantic <==>
      p in seeds && !(p in prepared && p in m.digests && m.digests[p] == prepared[p].digest)
    ensures IsLeastClosed(ops, m.includes, semantic, dependents)
    ensures ChangedNames(m, prepared, semantic, ch)
    ensures affected == seeds + dependents + SymbolUsers(m, ch)
    ensures reasons.Keys == affected && AllJustified(ops, m, seeds, dependents, ch, reasons)
    ensures forall f :: f in seeds ==> SourceOrContextDelta in reasons[f]
  {
    var initial: Reasons := map p | p in seeds :: {SourceOrContextDelta};
    var moved := SemanticSeeds(m, seeds, prepared);
    var included, r1 := IncludeClosure(ops, m.includes, moved, initial);
    var changed := CollectChanged(m, prepared, moved);
    semantic, dependents, ch := moved, included, changed;
    affected, reasons := seeds + included, r1;
    InitialReasonsJustified(ops, m, seeds, included, changed, initial, reasons);
    hide AllJustified, IsLeastClosed, SymbolUsers, ChangedNames, NamesOneOf, IncludeReasonsSound;
    if changed.names != {} || changed.qnames != {} {
      affected, reasons := AddUsers(ops, m, seeds, included, changed, affected, reasons);
    } else {
      NoUsers(m, changed);
    }
  }
}
