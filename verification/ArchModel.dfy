/** Frozen baselines of architecture models and the difference of a working model to its baseline. */
module ArchModel {
  import opened Prelude

  type Entity = (string, string)

  datatype Component = Component(
    id: string, model: string, origin: Option<string>, kind: string, name: string, description: string,
    parent: Option<string>)

  datatype Relation = Relation(
    id: string, model: string, kind: string, source: string, target: string, caption: Option<string>)

  /** A component as the baseline document records it; its id is the source model's id. */
  datatype Frozen = Frozen(
    id: string, kind: string, name: string, description: string, parent: Option<string>, entities: set<Entity>)

  type Key = (string, string, string)

  datatype Baseline = Baseline(components: seq<Frozen>, relations: seq<Key>)

  // ---------- writing a baseline ----------

  function FrozenOf(c: Component, entities: map<string, set<Entity>>): Frozen {
    Frozen(c.id, c.kind, c.name, c.description, c.parent, EntitiesOf(entities, c.id))
  }

  function EntitiesOf(entities: map<string, set<Entity>>, id: string): set<Entity> {
    if id in entities then entities[id] else {}
  }

  method BuildBaseline(cs: seq<Component>, rs: seq<Relation>, entities: map<string, set<Entity>>)
    returns (b: Baseline)
    ensures |b.components| == |cs| && forall i :: 0 <= i < |cs| ==> b.components[i] == FrozenOf(cs[i], entities)
    ensures |b.relations| == |rs|
    ensures forall i :: 0 <= i < |rs| ==> b.relations[i] == (rs[i].kind, rs[i].source, rs[i].target)
  {
    var docs, rels := [], [];
    for i := 0 to |cs|
      invariant |docs| == i && forall j :: 0 <= j < i ==> docs[j] == FrozenOf(cs[j], entities)
    {
      docs := docs + [FrozenOf(cs[i], entities)];
    }
    for i := 0 to |rs|
      invariant |rels| == i && forall j :: 0 <= j < i ==> rels[j] == (rs[j].kind, rs[j].source, rs[j].target)
    {
      rels := rels + [(rs[i].kind, rs[i].source, rs[i].target)];
    }
    b := Baseline(docs, rels);
  }

  // ---------- the dictionaries of the diff ----------

  function ById(b: seq<Frozen>): map<string, Frozen> {
    if b == [] then map[] else ById(b[..|b| - 1])[b[|b| - 1].id := b[|b| - 1]]
  }

  function WorkById(cs: seq<Component>): map<string, Component> {
    if cs == [] then map[] else WorkById(cs[..|cs| - 1])[cs[|cs| - 1].id := cs[|cs| - 1]]
  }

  function Origins(cs: seq<Component>): set<string> {
    set c | c in cs && c.origin.Some? :: c.origin.value
  }

  /** The components that claim an origin first, in order. */
  function Matched(cs: seq<Component>): seq<Component> {
    if cs == [] then []
    else
      var c := cs[|cs| - 1];
      var before := cs[..|cs| - 1];
      Matched(before) + (if c.origin.Some? && c.origin.value !in Origins(before) then [c] else [])
  }

  ghost predicate ClaimsFirst(cs: seq<Component>, i: int) {
    && 0 <= i < |cs| && cs[i].origin.Some?
    && forall j :: 0 <= j < i ==> cs[j].origin != cs[i].origin
  }

  /** Of several components with one origin only the first is compared. */
  lemma {:induction false} MatchedAreFirst(cs: seq<Component>)
    ensures forall c :: c in Matched(cs) <==> exists i :: ClaimsFirst(cs, i) && cs[i] == c
  {
    if cs != [] {
      var n := |cs| - 1;
      var before := cs[..n];
      MatchedAreFirst(before);
      forall i | 0 <= i < n ensures ClaimsFirst(cs, i) <==> ClaimsFirst(before, i) {
        assert forall j :: 0 <= j < i ==> before[j] == cs[j];
      }
      LastClaim(cs);
      forall c | c in Matched(cs) ensures exists i :: ClaimsFirst(cs, i) && cs[i] == c {
        if c in Matched(before) {
          var i :| ClaimsFirst(before, i) && before[i] == c;
          assert ClaimsFirst(cs, i);
        } else {
          assert ClaimsFirst(cs, n) && cs[n] == c;
        }
      }
      forall i | ClaimsFirst(cs, i) ensures cs[i] in Matched(cs) {
        if i < n {
          assert ClaimsFirst(before, i) && before[i] == cs[i];
        }
      }
    }
  }

  lemma {:induction false} LastClaim(cs: seq<Component>)
    requires cs != []
    ensures var n := |cs| - 1;
      ClaimsFirst(cs, n) <==> cs[n].origin.Some? && cs[n].origin.value !in Origins(cs[..n])
  {
    var n := |cs| - 1;
    if cs[n].origin.Some? {
      forall j | 0 <= j < n && cs[j].origin == cs[n].origin ensures cs[n].origin.value in Origins(cs[..n]) {
        assert cs[..n][j] in cs[..n];
      }
      if cs[n].origin.value in Origins(cs[..n]) {
        var c :| c in cs[..n] && c.origin.Some? && c.origin.value == cs[n].origin.value;
        var j :| 0 <= j < n && cs[..n][j] == c;
        assert cs[j].origin == cs[n].origin;
      }
    }
  }

  function Keep<T>(xs: seq<T>, p: T -> bool): seq<T> {
    if xs == [] then []
    else Keep(xs[..|xs| - 1], p) + (if p(xs[|xs| - 1]) then [xs[|xs| - 1]] else [])
  }

  lemma {:induction false} KeepMeaning<T>(xs: seq<T>, p: T -> bool, x: T)
    ensures x in Keep(xs, p) <==> x in xs && p(x)
  {
    if xs != [] {
      KeepMeaning(xs[..|xs| - 1], p, x);
      assert xs == xs[..|xs| - 1] + [xs[|xs| - 1]];
    }
  }

  lemma {:induction false} NothingKept<T(!new)>(xs: seq<T>, p: T -> bool)
    ensures Keep(xs, p) == [] <==> forall x :: x in xs ==> !p(x)
  {
    forall x ensures x in Keep(xs, p) <==> x in xs && p(x) {
      KeepMeaning(xs, p, x);
    }
    if Keep(xs, p) != [] {
      assert Keep(xs, p)[0] in Keep(xs, p);
    }
  }

  // ---------- the parts of the diff ----------

  /** The two sides' dictionaries. */
  datatype Sides = Sides(base: map<string, Frozen>, work: map<string, Component>, entities: map<string, set<Entity>>)

  predicate IsAdded(s: Sides, c: Component) {
    c.origin.None? || c.origin.value !in s.base
  }

  predicate IsModified(s: Sides, c: Component) {
    !IsAdded(s, c) &&
    var b := s.base[c.origin.value];
    c.kind != b.kind || c.name != b.name || c.description != b.description
  }

  function ParentOrigin(s: Sides, c: Component): Option<string> {
    if c.parent.Some? && c.parent.value in s.work then s.work[c.parent.value].origin else None
  }

  predicate IsMoved(s: Sides, c: Component) {
    !IsAdded(s, c) &&
    var b := s.base[c.origin.value];
    if c.parent.None? then b.parent.Some?
    else ParentOrigin(s, c).None? || ParentOrigin(s, c) != b.parent
  }

  predicate IsRemapped(s: Sides, c: Component) {
    !IsAdded(s, c) && EntitiesOf(s.entities, c.id) != s.base[c.origin.value].entities
  }

  /** A relation in baseline terms; None when an endpoint has no counterpart. */
  function RelationKey(s: Sides, r: Relation): Option<Key> {
    if r.source !in s.work || r.target !in s.work
       || IsAdded(s, s.work[r.source]) || IsAdded(s, s.work[r.target]) then None
    else Some((r.kind, s.work[r.source].origin.value, s.work[r.target].origin.value))
  }

  predicate IsNewRelation(s: Sides, b: Baseline, r: Relation) {
    RelationKey(s, r).None? || RelationKey(s, r).value !in b.relations
  }

  function WorkingKeys(s: Sides, rs: seq<Relation>): set<Key> {
    set r | r in rs && RelationKey(s, r).Some? :: RelationKey(s, r).value
  }

  datatype Diff = Diff(
    added: seq<Component>, removed: seq<Frozen>, modified: seq<Component>, moved: seq<Component>,
    addedRelations: seq<Relation>, removedRelations: set<Key>, mappingChanges: seq<Component>)

  function SidesOf(b: Baseline, cs: seq<Component>, entities: map<string, set<Entity>>): Sides {
    Sides(ById(b.components), WorkById(cs), entities)
  }

  function DiffOf(b: Baseline, cs: seq<Component>, rs: seq<Relation>, entities: map<string, set<Entity>>): Diff {
    var s := SidesOf(b, cs, entities);
    Diff(
      Keep(cs, c => IsAdded(s, c)),
      Keep(b.components, (f: Frozen) => f.id !in Origins(cs)),
      Keep(Matched(cs), c => IsModified(s, c)),
      Keep(Matched(cs), c => IsMoved(s, c)),
      Keep(rs, r => IsNewRelation(s, b, r)),
      (set k | k in b.relations) - WorkingKeys(s, rs),
      Keep(Matched(cs), c => IsRemapped(s, c)))
  }

  /** Every claimed origin is in the baseline; otherwise the unguarded lookup raises. */
  predicate OriginsKnown(b: Baseline, cs: seq<Component>) {
    forall c :: c in cs && c.origin.Some? ==> c.origin.value in ById(b.components)
  }

  // ---------- the computation ----------

  /** A diff put together from these parts is the diff. */
  lemma {:induction false} DiffParts(
      b: Baseline, cs: seq<Component>, rs: seq<Relation>, entities: map<string, set<Entity>>, d: Diff)
    requires var s := SidesOf(b, cs, entities);
      && d.added == Keep(cs, c => IsAdded(s, c))
      && d.removed == Keep(b.components, (f: Frozen) => f.id !in Origins(cs))
      && d.modified == Keep(Matched(cs), c => IsModified(s, c))
      && d.moved == Keep(Matched(cs), c => IsMoved(s, c))
      && d.addedRelations == Keep(rs, r => IsNewRelation(s, b, r))
      && d.removedRelations == (set k | k in b.relations) - WorkingKeys(s, rs)
      && d.mappingChanges == Keep(Matched(cs), c => IsRemapped(s, c))
    ensures d == DiffOf(b, cs, rs, entities)
  {
  }

  method ComputeDiff(b: Baseline, cs: seq<Component>, rs: seq<Relation>, entities: map<string, set<Entity>>)
    returns (r: Result<Diff, string>)
    ensures r.Ok? <==> OriginsKnown(b, cs)
    ensures r.Ok? ==> r.value == DiffOf(b, cs, rs, entities)
  {
    hide ById, WorkById, IsModified, IsMoved, IsRemapped, RelationKey, DiffOf, IsNewRelation;
    var s, matched, origins := Dictionaries(b, cs, entities);
    var added := AddedTo(s, cs);
    var removed := RemovedFrom(b, cs, origins);
    MatchedHasAllOrigins(cs);
    var ok, modified, moved := CompareMatched(s, matched);
    if !ok { return Err("KeyError"); }
    var addedRelations, removedRelations := CompareRelations(s, b, rs);
    var remapped := CompareMappings(s, matched);
    r := Ok(Diff(added, removed, modified, moved, addedRelations, removedRelations, remapped));
    DiffParts(b, cs, rs, entities, r.value);
  }

  method AddedTo(s: Sides, cs: seq<Component>) returns (added: seq<Component>)
    ensures added == Keep(cs, c => IsAdded(s, c))
  {
    hide IsAdded;
    added := [];
    for i := 0 to |cs|
      invariant added == Keep(cs[..i], c => IsAdded(s, c))
    {
      assert cs[..i + 1][..i] == cs[..i];
      if IsAdded(s, cs[i]) { added := added + [cs[i]]; }
    }
    assert cs[..|cs|] == cs;
  }

  method RemovedFrom(b: Baseline, cs: seq<Component>, origins: set<string>) returns (removed: seq<Frozen>)
    requires origins == Origins(cs)
    ensures removed == Keep(b.components, (f: Frozen) => f.id !in Origins(cs))
  {
    hide Origins;
    removed := [];
    for i := 0 to |b.components|
      invariant removed == Keep(b.components[..i], (f: Frozen) => f.id !in Origins(cs))
    {
      assert b.components[..i + 1][..i] == b.components[..i];
      if b.components[i].id !in origins { removed := removed + [b.components[i]]; }
    }
    assert b.components[..|b.components|] == b.components;
  }

  method Dictionaries(b: Baseline, cs: seq<Component>, entities: map<string, set<Entity>>)
    returns (s: Sides, matched: seq<Component>, origins: set<string>)
    ensures s == SidesOf(b, cs, entities) && matched == Matched(cs) && origins == Origins(cs)
  {
    var base: map<string, Frozen> := map[];
    for i := 0 to |b.components|
      invariant base == ById(b.components[..i])
    {
      assert b.components[..i + 1][..i] == b.components[..i];
      base := base[b.components[i].id := b.components[i]];
    }
    assert b.components[..|b.components|] == b.components;
    var work: map<string, Component> := map[];
    for i := 0 to |cs|
      invariant work == WorkById(cs[..i])
    {
      assert cs[..i + 1][..i] == cs[..i];
      work := work[cs[i].id := cs[i]];
    }
    assert cs[..|cs|] == cs;
    matched, origins := ByOrigin(cs);
    s := Sides(base, work, entities);
  }

  lemma {:induction false} ByOriginStep(cs: seq<Component>, i: nat)
    requires i < |cs|
    ensures Origins(cs[..i + 1]) == Origins(cs[..i]) + (if cs[i].origin.Some? then {cs[i].origin.value} else {})
    ensures Matched(cs[..i + 1]) == Matched(cs[..i])
      + (if cs[i].origin.Some? && cs[i].origin.value !in Origins(cs[..i]) then [cs[i]] else [])
  {
    assert cs[..i + 1][..i] == cs[..i];
    assert cs[..i + 1] == cs[..i] + [cs[i]];
  }

  /** `setdefault` on the origins: the first component that claims one keeps it. */
  method ByOrigin(cs: seq<Component>) returns (matched: seq<Component>, origins: set<string>)
    ensures matched == Matched(cs) && origins == Origins(cs)
  {
    matched, origins := [], {};
    assert Origins(cs[..0]) == {};
    assert Matched(cs[..0]) == [];
    hide Origins, Matched;
    for i := 0 to |cs|
      invariant matched == Matched(cs[..i]) && origins == Origins(cs[..i])
    {
      ByOriginStep(cs, i);
      if cs[i].origin.Some? && cs[i].origin.value !in origins {
        matched := matched + [cs[i]];
        origins := origins + {cs[i].origin.value};
      }
    }
    assert cs[..|cs|] == cs;
  }

  method CompareMatched(s: Sides, matched: seq<Component>)
    returns (ok: bool, modified: seq<Component>, moved: seq<Component>)
    requires forall c :: c in matched ==> c.origin.Some?
    ensures ok <==> forall c :: c in matched ==> c.origin.value in s.base
    ensures ok ==> modified == Keep(matched, c => IsModified(s, c)) && moved == Keep(matched, c => IsMoved(s, c))
  {
    modified, moved := [], [];
    for i := 0 to |matched|
      invariant forall c :: c in matched[..i] ==> c.origin.value in s.base
      invariant modified == Keep(matched[..i], c => IsModified(s, c))
      invariant moved == Keep(matched[..i], c => IsMoved(s, c))
    {
      var c := matched[i];
      assert matched[..i + 1][..i] == matched[..i] && matched[..i + 1] == matched[..i] + [c];
      if c.origin.value !in s.base { return false, modified, moved; }
      if IsModified(s, c) { modified := modified + [c]; }
      if IsMoved(s, c) { moved := moved + [c]; }
    }
    assert matched[..|matched|] == matched;
    ok := true;
  }

  method CompareMappings(s: Sides, matched: seq<Component>) returns (remapped: seq<Component>)
    ensures remapped == Keep(matched, c => IsRemapped(s, c))
  {
    remapped := [];
    for i := 0 to |matched|
      invariant remapped == Keep(matched[..i], c => IsRemapped(s, c))
    {
      assert matched[..i + 1][..i] == matched[..i];
      if IsRemapped(s, matched[i]) { remapped := remapped + [matched[i]]; }
    }
    assert matched[..|matched|] == matched;
  }

  method CompareRelations(s: Sides, b: Baseline, rs: seq<Relation>) returns (added: seq<Relation>, removed: set<Key>)
    ensures added == Keep(rs, r => IsNewRelation(s, b, r))
    ensures removed == (set k | k in b.relations) - WorkingKeys(s, rs)
  {
    hide RelationKey;
    added := [];
    var keys: set<Key> := {};
    for i := 0 to |rs|
      invariant added == Keep(rs[..i], r => IsNewRelation(s, b, r)) && keys == WorkingKeys(s, rs[..i])
    {
      var r := rs[i];
      assert rs[..i + 1][..i] == rs[..i] && rs[..i + 1] == rs[..i] + [r];
      var key := RelationKey(s, r);
      if key.None? {
        added := added + [r];
      } else {
        keys := keys + {key.value};
        if key.value !in b.relations { added := added + [r]; }
      }
    }
    assert rs[..|rs|] == rs;
    removed := {};
    for i := 0 to |b.relations|
      invariant removed == (set k | k in b.relations[..i]) - keys
    {
      assert b.relations[..i + 1] == b.relations[..i] + [b.relations[i]];
      if b.relations[i] !in keys { removed := removed + {b.relations[i]}; }
    }
    assert b.relations[..|b.relations|] == b.relations;
  }

  lemma {:induction false} MatchedHasAllOrigins(cs: seq<Component>)
    ensures forall c :: c in Matched(cs) ==> c in cs && c.origin.Some?
    ensures forall o :: o in Origins(cs) ==> exists c :: c in Matched(cs) && c.origin == Some(o)
  {
    if cs != [] {
      var before := cs[..|cs| - 1];
      MatchedHasAllOrigins(before);
      assert cs == before + [cs[|cs| - 1]];
      forall o | o in Origins(cs) ensures exists c :: c in Matched(cs) && c.origin == Some(o) {
        if o in Origins(before) {
          var c :| c in Matched(before) && c.origin == Some(o);
          assert c in Matched(cs);
        } else {
          assert cs[|cs| - 1] in Matched(cs);
        }
      }
    }
  }

  // ---------- what an empty diff means ----------

  ghost predicate DistinctFrozen(b: Baseline) {
    forall i, j :: 0 <= i < j < |b.components| ==> b.components[i].id != b.components[j].id
  }

  ghost predicate DistinctIds(cs: seq<Component>) {
    forall i, j :: 0 <= i < j < |cs| ==> cs[i].id != cs[j].id
  }

  ghost predicate DistinctOrigins(cs: seq<Component>) {
    forall i, j :: 0 <= i < j < |cs| && cs[i].origin.Some? ==> cs[i].origin != cs[j].origin
  }

  ghost predicate SameParent(cs: seq<Component>, c: Component, f: Frozen) {
    if c.parent.None? then f.parent.None?
    else exists p :: p in cs && p.id == c.parent.value && p.origin.Some? && p.origin == f.parent
  }

  /** The relation joins the working copies of the key's two ends. */
  ghost predicate RenamesTo(cs: seq<Component>, r: Relation, k: Key) {
    && r.kind == k.0
    && (exists a :: a in cs && a.id == r.source && a.origin == Some(k.1))
    && (exists z :: z in cs && z.id == r.target && z.origin == Some(k.2))
  }

  ghost predicate Copies(cs: seq<Component>, entities: map<string, set<Entity>>, c: Component, f: Frozen) {
    && c.kind == f.kind && c.name == f.name && c.description == f.description
    && SameParent(cs, c, f) && EntitiesOf(entities, c.id) == f.entities
  }

  /** The working model is the baseline with every id replaced by that of its copy. */
  ghost predicate SameUpToOrigins(
      b: Baseline, cs: seq<Component>, rs: seq<Relation>, entities: map<string, set<Entity>>) {
    && (forall c :: c in cs ==> exists f :: f in b.components && c.origin == Some(f.id))
    && (forall f :: f in b.components ==> exists c :: c in cs && c.origin == Some(f.id))
    && (forall c, f :: c in cs && f in b.components && c.origin == Some(f.id) ==> Copies(cs, entities, c, f))
    && (forall r :: r in rs ==> exists k :: k in b.relations && RenamesTo(cs, r, k))
    && (forall k :: k in b.relations ==> exists r :: r in rs && RenamesTo(cs, r, k))
  }

  ghost predicate Empty(d: Diff) {
    && d.added == [] && d.removed == [] && d.modified == [] && d.moved == []
    && d.addedRelations == [] && d.removedRelations == {} && d.mappingChanges == []
  }

  lemma {:induction false} ByIdMeaning(b: seq<Frozen>)
    requires forall i, j :: 0 <= i < j < |b| ==> b[i].id != b[j].id
    ensures forall f :: f in b ==> f.id in ById(b) && ById(b)[f.id] == f
    ensures forall k :: k in ById(b) ==> ById(b)[k] in b && ById(b)[k].id == k
  {
    if b != [] {
      ByIdMeaning(b[..|b| - 1]);
      assert b == b[..|b| - 1] + [b[|b| - 1]];
    }
  }

  lemma {:induction false} WorkByIdMeaning(cs: seq<Component>)
    requires DistinctIds(cs)
    ensures forall c :: c in cs ==> c.id in WorkById(cs) && WorkById(cs)[c.id] == c
    ensures forall k :: k in WorkById(cs) ==> WorkById(cs)[k] in cs && WorkById(cs)[k].id == k
  {
    if cs != [] {
      WorkByIdMeaning(cs[..|cs| - 1]);
      assert cs == cs[..|cs| - 1] + [cs[|cs| - 1]];
    }
  }

  lemma {:induction false} MatchedIsEverythingWithAnOrigin(cs: seq<Component>, c: Component)
    requires DistinctOrigins(cs)
    ensures c in Matched(cs) <==> c in cs && c.origin.Some?
  {
    if cs != [] {
      var n := |cs| - 1;
      MatchedIsEverythingWithAnOrigin(cs[..n], c);
      assert cs == cs[..n] + [cs[n]];
      forall d | d in cs[..n] && d.origin.Some? ensures d.origin != cs[n].origin {
        var i :| 0 <= i < n && cs[i] == d;
      }
    }
  }

  /** The facts about both dictionaries that the comparison relies on. */
  ghost predicate GoodSides(b: Baseline, cs: seq<Component>, s: Sides) {
    && (forall f :: f in b.components ==> f.id in s.base && s.base[f.id] == f)
    && (forall k :: k in s.base ==> s.base[k] in b.components && s.base[k].id == k)
    && (forall c :: c in cs ==> c.id in s.work && s.work[c.id] == c)
    && (forall k :: k in s.work ==> s.work[k] in cs && s.work[k].id == k)
    && (forall c :: c in cs && c.origin.Some? ==> c.origin.value in s.base)
  }

  ghost predicate Comparable(b: Baseline, cs: seq<Component>) {
    DistinctFrozen(b) && DistinctIds(cs) && DistinctOrigins(cs) && OriginsKnown(b, cs)
  }

  lemma {:induction false} SidesAreGood(b: Baseline, cs: seq<Component>, entities: map<string, set<Entity>>)
    requires Comparable(b, cs)
    ensures GoodSides(b, cs, SidesOf(b, cs, entities))
  {
    ByIdMeaning(b.components);
    WorkByIdMeaning(cs);
  }

  lemma {:induction false} MovedMeansParentDiffers(b: Baseline, cs: seq<Component>, s: Sides, c: Component)
    requires GoodSides(b, cs, s) && c in cs && c.origin.Some?
    ensures IsMoved(s, c) <==> !SameParent(cs, c, s.base[c.origin.value])
  {
    if c.parent.Some? && c.parent.value in s.work {
      assert s.work[c.parent.value] in cs;
    }
  }

  lemma {:induction false} KeyRenames(b: Baseline, cs: seq<Component>, s: Sides, r: Relation, k: Key)
    requires GoodSides(b, cs, s)
    ensures RelationKey(s, r) == Some(k) <==> RenamesTo(cs, r, k)
  {
    if RelationKey(s, r) == Some(k) {
      assert s.work[r.source] in cs && s.work[r.target] in cs;
    }
    if RenamesTo(cs, r, k) {
      var a :| a in cs && a.id == r.source && a.origin == Some(k.1);
      var z :| z in cs && z.id == r.target && z.origin == Some(k.2);
      assert s.work[r.source] == a && s.work[r.target] == z;
    }
  }

  lemma {:induction false} EmptyComponents(b: Baseline, cs: seq<Component>, s: Sides)
    requires GoodSides(b, cs, s) && DistinctOrigins(cs)
    ensures Keep(cs, c => IsAdded(s, c)) == [] <==>
            forall c :: c in cs ==> exists f :: f in b.components && c.origin == Some(f.id)
    ensures Keep(b.components, (f: Frozen) => f.id !in Origins(cs)) == [] <==>
            forall f :: f in b.components ==> exists c :: c in cs && c.origin == Some(f.id)
  {
    NothingKept(cs, c => IsAdded(s, c));
    NothingKept(b.components, (f: Frozen) => f.id !in Origins(cs));
    forall c | c in cs ensures !IsAdded(s, c) <==> exists f :: f in b.components && c.origin == Some(f.id) {
      if !IsAdded(s, c) {
        assert s.base[c.origin.value] in b.components;
      }
    }
    forall f | f in b.components ensures f.id in Origins(cs) <==> exists c :: c in cs && c.origin == Some(f.id) {
    }
  }

  predicate Differs(s: Sides, c: Component) {
    IsModified(s, c) || IsMoved(s, c) || IsRemapped(s, c)
  }

  lemma {:induction false} NoMatchDiffers(b: Baseline, cs: seq<Component>, s: Sides)
    requires GoodSides(b, cs, s) && DistinctOrigins(cs)
    ensures (forall c :: c in Matched(cs) ==> !Differs(s, c)) <==>
            forall c, f :: c in cs && f in b.components && c.origin == Some(f.id) ==> Copies(cs, s.entities, c, f)
  {
    forall c ensures c in Matched(cs) <==> c in cs && c.origin.Some? {
      MatchedIsEverythingWithAnOrigin(cs, c);
    }
    forall c | c in cs && c.origin.Some?
      ensures c.origin.value in s.base && s.base[c.origin.value] in b.components
      ensures s.base[c.origin.value].id == c.origin.value
      ensures Copies(cs, s.entities, c, s.base[c.origin.value]) <==> !Differs(s, c)
    {
    }
    forall f | f in b.components ensures f.id in s.base && s.base[f.id] == f {
    }
    hide GoodSides, Matched, Copies, Differs, DistinctOrigins;
  }

  lemma {:induction false} EmptyMatches(b: Baseline, cs: seq<Component>, s: Sides)
    requires GoodSides(b, cs, s) && DistinctOrigins(cs)
    ensures (&& Keep(Matched(cs), c => IsModified(s, c)) == []
             && Keep(Matched(cs), c => IsMoved(s, c)) == []
             && Keep(Matched(cs), c => IsRemapped(s, c)) == []) <==>
            forall c, f :: c in cs && f in b.components && c.origin == Some(f.id) ==> Copies(cs, s.entities, c, f)
  {
    hide GoodSides, Keep, Matched, Copies, IsModified, IsMoved, IsRemapped, DistinctOrigins;
    NothingKept(Matched(cs), c => IsModified(s, c));
    NothingKept(Matched(cs), c => IsMoved(s, c));
    NothingKept(Matched(cs), c => IsRemapped(s, c));
    NoMatchDiffers(b, cs, s);
  }

  lemma {:induction false} EmptyRelations(b: Baseline, cs: seq<Component>, s: Sides, rs: seq<Relation>)
    requires GoodSides(b, cs, s)
    ensures Keep(rs, r => IsNewRelation(s, b, r)) == [] <==>
            forall r :: r in rs ==> exists k :: k in b.relations && RenamesTo(cs, r, k)
    ensures (set k | k in b.relations) - WorkingKeys(s, rs) == {} <==>
            forall k :: k in b.relations ==> exists r :: r in rs && RenamesTo(cs, r, k)
  {
    NothingKept(rs, r => IsNewRelation(s, b, r));
    forall r, k ensures RelationKey(s, r) == Some(k) <==> RenamesTo(cs, r, k) {
      KeyRenames(b, cs, s, r, k);
    }
    hide RelationKey, RenamesTo, Keep, GoodSides;
    forall r | r in rs ensures !IsNewRelation(s, b, r) <==> exists k :: k in b.relations && RenamesTo(cs, r, k) {
      if !IsNewRelation(s, b, r) {
        assert RenamesTo(cs, r, RelationKey(s, r).value);
      }
    }
    forall k | k in b.relations ensures k in WorkingKeys(s, rs) <==> exists r :: r in rs && RenamesTo(cs, r, k) {
    }
    var missing := (set k | k in b.relations) - WorkingKeys(s, rs);
    assert forall k :: k in missing <==> k in b.relations && k !in WorkingKeys(s, rs);
  }

  /** All lists are empty exactly when the working model is the baseline up to origin renaming. */
  lemma {:induction false} EmptyIffSameUpToOrigins(
      b: Baseline, cs: seq<Component>, rs: seq<Relation>, entities: map<string, set<Entity>>)
    requires Comparable(b, cs)
    ensures Empty(DiffOf(b, cs, rs, entities)) <==> SameUpToOrigins(b, cs, rs, entities)
  {
    var s := SidesOf(b, cs, entities);
    SidesAreGood(b, cs, entities);
    hide GoodSides, Keep, Matched, Copies, RenamesTo, IsAdded, IsModified, IsMoved, IsRemapped, IsNewRelation,
      WorkingKeys;
    EmptyComponents(b, cs, s);
    EmptyMatches(b, cs, s);
    EmptyRelations(b, cs, s, rs);
  }
}
