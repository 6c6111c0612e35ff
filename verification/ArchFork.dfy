/** Forking a model with a frozen baseline, and what the diff of a fork can and cannot say from then on. */
module ArchFork {
  import opened Prelude
  import opened ArchModel
  import opened Hierarchy
  import opened ArchStore

  // ---------- what a fork writes ----------

  /** The rows of the source model in listing order, and the fresh ids of their copies. */
  datatype Fork = Fork(
    source: string, model: string,
    components: seq<Component>, ids: seq<string>,
    relations: seq<Relation>, relationIds: seq<string>,
    mappings: seq<string>, mappingIds: seq<string>)

  function IdMap(cs: seq<Component>, ids: seq<string>): map<string, string>
    requires |cs| == |ids|
  {
    if cs == [] then map[]
    else IdMap(cs[..|cs| - 1], ids[..|ids| - 1])[cs[|cs| - 1].id := ids[|ids| - 1]]
  }

  lemma {:induction false} IdMapStart(cs: seq<Component>, ids: seq<string>)
    requires |cs| == |ids|
    ensures IdMap(cs[..0], ids[..0]) == map[]
  {
  }

  lemma {:induction false} IdMapStep(cs: seq<Component>, ids: seq<string>, i: nat)
    requires i < |cs| == |ids|
    ensures IdMap(cs[..i + 1], ids[..i + 1]) == IdMap(cs[..i], ids[..i])[cs[i].id := ids[i]]
  {
    assert cs[..i + 1][..i] == cs[..i] && ids[..i + 1][..i] == ids[..i];
  }

  lemma {:induction false} IdMapMeaning(cs: seq<Component>, ids: seq<string>)
    requires |cs| == |ids| && DistinctIds(cs)
    ensures forall i :: 0 <= i < |cs| ==> cs[i].id in IdMap(cs, ids) && IdMap(cs, ids)[cs[i].id] == ids[i]
    ensures forall x :: x in IdMap(cs, ids) ==> IsIdOf(cs, x)
  {
    if cs != [] {
      var n := |cs| - 1;
      IdMapMeaning(cs[..n], ids[..n]);
      forall x | x in IdMap(cs, ids) ensures IsIdOf(cs, x) {
        if x != cs[n].id {
          assert IsIdOf(cs[..n], x);
          var i :| 0 <= i < n && cs[..n][i].id == x;
          assert cs[i].id == x;
        }
      }
    }
  }

  ghost predicate IsIdOf(cs: seq<Component>, x: string) {
    exists i :: 0 <= i < |cs| && cs[i].id == x
  }

  predicate Distinct(xs: seq<string>) {
    forall i, j :: 0 <= i < j < |xs| ==> xs[i] != xs[j]
  }

  ghost predicate ListsRelations(rs: seq<Relation>, db: Arch, model: string) {
    && (forall r :: r in rs ==> r.id in db.relations && db.relations[r.id] == r && r.model == model)
    && (forall x :: x in db.relations && db.relations[x].model == model ==> db.relations[x] in rs)
  }

  ghost predicate ListsMappings(ms: seq<string>, db: Arch, model: string) {
    && (forall m :: m in ms ==> m in db.mappings && InModel(db, db.mappings[m].component, model))
    && (forall m :: m in db.mappings && InModel(db, db.mappings[m].component, model) ==> m in ms)
  }

  /** The listings are those of the database and every new id is new. */
  ghost predicate CanFork(db: Arch, f: Fork) {
    && f.source in db.kinds && db.kinds[f.source] == "as_is" && f.model !in db.kinds
    && Lists(f.components, db.components, f.source)
    && ListsRelations(f.relations, db, f.source) && ListsMappings(f.mappings, db, f.source)
    && |f.ids| == |f.components| && |f.relationIds| == |f.relations| && |f.mappingIds| == |f.mappings|
    && Distinct(f.ids) && Distinct(f.relationIds) && Distinct(f.mappingIds)
    && (forall i :: 0 <= i < |f.relations| ==> forall j :: i < j < |f.relations| ==> f.relations[i] != f.relations[j])
    && Distinct(f.mappings)
    && (forall x :: x in f.ids ==> x !in db.components)
    && (forall x :: x in f.relationIds ==> x !in db.relations)
    && (forall x :: x in f.mappingIds ==> x !in db.mappings)
  }

  function Bare(f: Fork, i: nat): Component
    requires i < |f.components| == |f.ids|
  {
    f.components[i].(id := f.ids[i], model := f.model, origin := Some(f.components[i].id), parent := None)
  }

  function Renamed(f: Fork, x: string): Option<string>
    requires |f.components| == |f.ids|
  {
    if x in IdMap(f.components, f.ids) then Some(IdMap(f.components, f.ids)[x]) else None
  }

  function NewParent(f: Fork, i: nat): Option<string>
    requires i < |f.components| == |f.ids|
  {
    if f.components[i].parent.None? then None else Renamed(f, f.components[i].parent.value)
  }

  function Copy(f: Fork, i: nat): Component
    requires i < |f.components| == |f.ids|
  {
    Bare(f, i).(parent := NewParent(f, i))
  }

  function CopyRelation(f: Fork, i: nat): Relation
    requires i < |f.relations| == |f.relationIds| && |f.components| == |f.ids|
  {
    var r := f.relations[i];
    r.(id := f.relationIds[i], model := f.model,
       source := Or(Renamed(f, r.source), ""), target := Or(Renamed(f, r.target), ""))
  }

  function CopyMapping(f: Fork, db: Arch, i: nat): Mapping
    requires i < |f.mappings| && |f.components| == |f.ids|
  {
    if f.mappings[i] in db.mappings then
      var m := db.mappings[f.mappings[i]];
      m.(component := Or(Renamed(f, m.component), ""))
    else Mapping("", ("", ""))
  }

  /** `before` with the first n of these rows added. */
  ghost predicate Grown<V>(before: map<string, V>, after: map<string, V>, ids: seq<string>, rows: seq<V>, n: nat)
    requires n <= |ids| == |rows|
  {
    && (forall x :: x in after <==> x in before || x in ids[..n])
    && (forall x :: x in before && x !in ids ==> after[x] == before[x])
    && (forall i :: 0 <= i < n ==> ids[i] in after && after[ids[i]] == rows[i])
  }

  lemma {:induction false} GrownStart<V>(before: map<string, V>, ids: seq<string>, rows: seq<V>)
    requires |ids| == |rows|
    ensures Grown(before, before, ids, rows, 0)
  {
  }

  lemma {:induction false} GrownStep<V>(
      before: map<string, V>, after: map<string, V>, ids: seq<string>, rows: seq<V>, n: nat)
    requires n < |ids| == |rows| && Grown(before, after, ids, rows, n) && Distinct(ids)
    ensures Grown(before, after[ids[n] := rows[n]], ids, rows, n + 1)
  {
    assert ids[..n + 1] == ids[..n] + [ids[n]];
  }

  function Copies(f: Fork): (r: seq<Component>)
    requires |f.components| == |f.ids|
    ensures |r| == |f.ids|
  {
    seq(|f.ids|, i requires 0 <= i < |f.ids| => Copy(f, i))
  }

  function RelationCopies(f: Fork): (r: seq<Relation>)
    requires |f.relations| == |f.relationIds| && |f.components| == |f.ids|
    ensures |r| == |f.relationIds|
  {
    seq(|f.relationIds|, i requires 0 <= i < |f.relationIds| => CopyRelation(f, i))
  }

  function MappingCopies(f: Fork, db: Arch): (r: seq<Mapping>)
    requires |f.mappings| == |f.mappingIds| && |f.components| == |f.ids|
    ensures |r| == |f.mappingIds|
  {
    seq(|f.mappingIds|, i requires 0 <= i < |f.mappingIds| => CopyMapping(f, db, i))
  }

  /** The baseline document of these rows. */
  ghost predicate IsBaseline(b: Baseline, cs: seq<Component>, rs: seq<Relation>, entities: map<string, set<Entity>>) {
    && |b.components| == |cs| && (forall i :: 0 <= i < |cs| ==> b.components[i] == FrozenOf(cs[i], entities))
    && |b.relations| == |rs|
    && forall i :: 0 <= i < |rs| ==> b.relations[i] == (rs[i].kind, rs[i].source, rs[i].target)
  }

  /** d is db after the fork. */
  ghost predicate ForkedInto(db: Arch, f: Fork, d: Arch)
    requires CanFork(db, f)
  {
    && d.kinds == db.kinds[f.model := "proposal"]
    && d.baselines.Keys == db.baselines.Keys + {f.model}
    && (forall m :: m in db.baselines && m != f.model ==> d.baselines[m] == db.baselines[m])
    && IsBaseline(d.baselines[f.model], f.components, f.relations, EntitiesMap(db))
    && Grown(db.components, d.components, f.ids, Copies(f), |f.ids|)
    && Grown(db.relations, d.relations, f.relationIds, RelationCopies(f), |f.relationIds|)
    && Grown(db.mappings, d.mappings, f.mappingIds, MappingCopies(f, db), |f.mappingIds|)
  }

  /** The fork as the source writes it: rows without parents first, then the links, then the rest. */
  method ForkModel(db: Arch, f: Fork) returns (d: Arch)
    requires CanFork(db, f)
    ensures ForkedInto(db, f, d)
  {
    var b := BuildBaseline(f.components, f.relations, EntitiesMap(db));
    var components := CopyComponents(db, f);
    var relations := CopyRelations(db, f);
    var mappings := CopyMappings(db, f);
    hide CanFork, Grown;
    d := Arch(db.kinds[f.model := "proposal"], db.baselines[f.model := b], components, relations, mappings);
  }

  /** The fork of the stored model, in one transaction. */
  method ForkStoredModel(store: Store, f: Fork)
    requires CanFork(store.db, f)
    modifies store
    ensures ForkedInto(old(store.db), f, store.db)
  {
    hide CanFork, ForkedInto;
    var forked := ForkModel(store.db, f);
    store.db := forked;
  }

  ghost function BareCopies(f: Fork): (r: seq<Component>)
    requires |f.components| == |f.ids|
    ensures |r| == |f.ids|
  {
    seq(|f.ids|, i requires 0 <= i < |f.ids| => Bare(f, i))
  }

  lemma {:induction false} BareCopyAt(f: Fork, i: nat)
    requires i < |f.components| == |f.ids|
    ensures BareCopies(f)[i] == Bare(f, i)
  {
  }

  lemma {:induction false} CopyAt(f: Fork, i: nat)
    requires i < |f.components| == |f.ids|
    ensures Copies(f)[i] == Copy(f, i)
  {
  }

  method CopyComponents(db: Arch, f: Fork) returns (cs: Table)
    requires CanFork(db, f)
    ensures Grown(db.components, cs, f.ids, Copies(f), |f.ids|)
  {
    var idmap;
    hide Grown;
    cs, idmap := InsertComponents(db, f);
    cs := LinkComponents(db, f, cs, idmap);
  }

  method InsertComponents(db: Arch, f: Fork) returns (cs: Table, idmap: map<string, string>)
    requires |f.components| == |f.ids| && Distinct(f.ids)
    ensures Grown(db.components, cs, f.ids, BareCopies(f), |f.ids|) && idmap == IdMap(f.components, f.ids)
  {
    hide Grown, Distinct, IdMap, BareCopies;
    var n := |f.ids|;
    ghost var bare := BareCopies(f);
    cs, idmap := db.components, map[];
    GrownStart(db.components, f.ids, bare);
    IdMapStart(f.components, f.ids);
    for i := 0 to n
      invariant Grown(db.components, cs, f.ids, bare, i)
      invariant idmap == IdMap(f.components[..i], f.ids[..i])
    {
      GrownStep(db.components, cs, f.ids, bare, i);
      BareCopyAt(f, i);
      IdMapStep(f.components, f.ids, i);
      idmap := idmap[f.components[i].id := f.ids[i]];
      cs := cs[f.ids[i] := Bare(f, i)];
    }
    assert f.components[..n] == f.components && f.ids[..n] == f.ids;
  }

  method LinkComponents(db: Arch, f: Fork, unlinked: Table, idmap: map<string, string>) returns (cs: Table)
    requires |f.components| == |f.ids| && Distinct(f.ids) && idmap == IdMap(f.components, f.ids)
    requires Grown(db.components, unlinked, f.ids, BareCopies(f), |f.ids|)
    ensures Grown(db.components, cs, f.ids, Copies(f), |f.ids|)
  {
    hide IdMap, Grown, Distinct, BareCopies, Copies;
    ghost var bare, linked := BareCopies(f), Copies(f);
    var n := |f.ids|;
    cs := unlinked;
    MixStart(bare, linked);
    for i := 0 to n
      invariant Grown(db.components, cs, f.ids, linked[..i] + bare[i..], n)
    {
      var parent := f.components[i].parent;
      var row := if parent.Some? && parent.value in idmap
                 then Bare(f, i).(parent := Some(idmap[parent.value])) else Bare(f, i);
      CopyAt(f, i);
      MixStep(db.components, cs, f.ids, bare, linked, i);
      cs := cs[f.ids[i] := row];
    }
    assert linked[..n] + bare[n..] == linked;
  }

  lemma {:induction false} MixStart<V>(bare: seq<V>, linked: seq<V>)
    requires |bare| == |linked|
    ensures linked[..0] + bare[0..] == bare
  {
  }

  lemma {:induction false} MixStep<V>(
      before: map<string, V>, after: map<string, V>, ids: seq<string>, bare: seq<V>, linked: seq<V>, i: nat)
    requires i < |ids| == |bare| == |linked| && Distinct(ids)
    requires Grown(before, after, ids, linked[..i] + bare[i..], |ids|)
    ensures Grown(before, after[ids[i] := linked[i]], ids, linked[..i + 1] + bare[i + 1..], |ids|)
  {
    assert ids[..|ids|] == ids;
    var more := linked[..i + 1] + bare[i + 1..];
    forall k | 0 <= k < |ids| ensures after[ids[i] := linked[i]][ids[k]] == more[k] {
      assert k != i ==> more[k] == (linked[..i] + bare[i..])[k];
      assert k != i ==> ids[k] != ids[i];
    }
  }

  method CopyRelations(db: Arch, f: Fork) returns (rs: map<string, Relation>)
    requires CanFork(db, f)
    ensures Grown(db.relations, rs, f.relationIds, RelationCopies(f), |f.relationIds|)
  {
    assert |f.relations| == |f.relationIds| && |f.components| == |f.ids| && Distinct(f.relationIds);
    ghost var copies := RelationCopies(f);
    rs := db.relations;
    assert f.relationIds[..0] == [];
    assert Grown(db.relations, rs, f.relationIds, copies, 0);
    hide CanFork, Grown;
    for i := 0 to |f.relationIds|
      invariant Grown(db.relations, rs, f.relationIds, copies, i)
    {
      GrownStep(db.relations, rs, f.relationIds, copies, i);
      rs := rs[f.relationIds[i] := CopyRelation(f, i)];
    }
  }

  method CopyMappings(db: Arch, f: Fork) returns (ms: map<string, Mapping>)
    requires CanFork(db, f)
    ensures Grown(db.mappings, ms, f.mappingIds, MappingCopies(f, db), |f.mappingIds|)
  {
    assert |f.mappings| == |f.mappingIds| && |f.components| == |f.ids| && Distinct(f.mappingIds);
    ghost var copies := MappingCopies(f, db);
    ms := db.mappings;
    assert f.mappingIds[..0] == [];
    assert Grown(db.mappings, ms, f.mappingIds, copies, 0);
    hide CanFork, Grown;
    for i := 0 to |f.mappingIds|
      invariant Grown(db.mappings, ms, f.mappingIds, copies, i)
    {
      GrownStep(db.mappings, ms, f.mappingIds, copies, i);
      ms := ms[f.mappingIds[i] := CopyMapping(f, db, i)];
    }
  }

  // ---------- the fork is valid ----------

  /** Where a copy comes from: every new row of the fork is the copy of one listed row. */
  lemma {:induction false} CopiesAt(db: Arch, f: Fork, d: Arch, i: nat)
    requires CanFork(db, f) && ForkedInto(db, f, d) && i < |f.ids|
    ensures f.ids[i] in d.components && d.components[f.ids[i]] == Copy(f, i)
    ensures f.components[i].id in db.components && db.components[f.components[i].id] == f.components[i]
    ensures f.components[i].model == f.source && f.ids[i] !in db.components
    ensures Renamed(f, f.components[i].id) == Some(f.ids[i])
  {
    IdMapMeaning(f.components, f.ids);
    assert f.components[i] in f.components && f.ids[i] in f.ids;
    assert Copies(f)[i] == Copy(f, i);
  }

  lemma {:induction false} ComponentsOfFork(db: Arch, f: Fork, d: Arch, x: string)
    requires CanFork(db, f) && ForkedInto(db, f, d)
    ensures x in db.components ==> x in d.components && d.components[x] == db.components[x]
    ensures x in d.components && x !in db.components ==> exists i :: 0 <= i < |f.ids| && f.ids[i] == x
  {
    assert f.ids[..|f.ids|] == f.ids;
  }

  /** Every source component has a copy. */
  lemma {:induction false} SourceHasCopy(db: Arch, f: Fork, x: string) returns (i: nat)
    requires CanFork(db, f) && x in db.components && db.components[x].model == f.source && GoodTable(db.components)
    ensures i < |f.components| == |f.ids| && f.components[i].id == x && Renamed(f, x) == Some(f.ids[i])
  {
    IdMapMeaning(f.components, f.ids);
    assert db.components[x] in f.components;
    i :| 0 <= i < |f.components| && f.components[i] == db.components[x];
  }

  /** A copy hangs under the copy of its source's parent. */
  lemma {:induction false} ParentOfCopy(db: Arch, f: Fork, d: Arch, i: nat)
    requires Valid(db) && CanFork(db, f) && ForkedInto(db, f, d) && i < |f.ids|
    ensures i < |f.components| && f.components[i].id in db.components
    ensures ParentOf(db.components, f.components[i].id) == f.components[i].parent
    ensures ParentOf(d.components, f.ids[i]) == NewParent(f, i)
    ensures f.components[i].parent.Some? ==>
      && NewParent(f, i).Some? && f.components[i].parent.value in db.components
      && db.components[f.components[i].parent.value].model == f.source
  {
    CopiesAt(db, f, d, i);
    hide ForkedInto, CanFork, GoodRelations, GoodMappings, GoodOrigins, GoodModels, Hierarchical, IdMap;
    if f.components[i].parent.Some? {
      var _ := SourceHasCopy(db, f, f.components[i].parent.value);
    }
  }

  /** Ancestors of a copy are the copies of the ancestors. */
  lemma {:induction false} UpOfCopy(db: Arch, f: Fork, d: Arch, i: nat, k: nat)
    requires Valid(db) && CanFork(db, f) && ForkedInto(db, f, d) && i < |f.components| == |f.ids|
    ensures Up(db.components, f.components[i].id, k).None? ==> Up(d.components, f.ids[i], k).None?
    ensures Up(db.components, f.components[i].id, k).Some? ==>
      var a := Up(db.components, f.components[i].id, k).value;
      && a in db.components && db.components[a].model == f.source
      && Up(d.components, f.ids[i], k) == Renamed(f, a)
  {
    hide ForkedInto, CanFork, GoodRelations, GoodMappings, GoodOrigins, GoodModels, GoodTable, IdMap, ParentOf,
      Renamed;
    CopiesAt(db, f, d, i);
    if k > 0 {
      UpOfCopy(db, f, d, i, k - 1);
      var before := Up(db.components, f.components[i].id, k - 1);
      if before.Some? {
        assert GoodTable(db.components);
        var j := SourceHasCopy(db, f, before.value);
        ParentOfCopy(db, f, d, j);
      }
    }
  }

  lemma {:induction false} OldParent(db: Arch, f: Fork, d: Arch, x: string)
    requires Valid(db) && CanFork(db, f) && ForkedInto(db, f, d) && x in db.components
    ensures ParentOf(d.components, x) == ParentOf(db.components, x)
    ensures ParentOf(db.components, x).Some? ==> ParentOf(db.components, x).value in db.components
  {
    ComponentsOfFork(db, f, d, x);
    hide ForkedInto, CanFork, GoodRelations, GoodMappings, GoodOrigins, GoodModels, Hierarchical;
  }

  /** Ancestors of an old row are as before. */
  lemma {:induction false} UpOfOld(db: Arch, f: Fork, d: Arch, x: string, k: nat)
    requires Valid(db) && CanFork(db, f) && ForkedInto(db, f, d) && x in db.components
    ensures Up(d.components, x, k) == Up(db.components, x, k)
    ensures Up(db.components, x, k).Some? ==> Up(db.components, x, k).value in db.components
  {
    hide Valid, ForkedInto, CanFork, ParentOf;
    if k > 0 {
      UpOfOld(db, f, d, x, k - 1);
      var before := Up(db.components, x, k - 1);
      if before.Some? {
        OldParent(db, f, d, before.value);
      }
    }
  }

  lemma {:induction false} ForkIsHierarchical(db: Arch, f: Fork, d: Arch)
    requires Valid(db) && CanFork(db, f) && ForkedInto(db, f, d)
    ensures Hierarchical(d.components)
  {
    forall x, k: nat | k > 0 ensures Up(d.components, x, k) != Some(x) {
      ComponentsOfFork(db, f, d, x);
      if x in db.components {
        UpOfOld(db, f, d, x, k);
      } else if x in d.components {
        var i :| 0 <= i < |f.ids| && f.ids[i] == x;
        CopyHasNoCycle(db, f, d, i, k);
      } else {
        assert Up(d.components, x, 0) == Some(x) && Up(d.components, x, 1).None?;
        UpStops(d.components, x, 1, k);
      }
    }
  }

  lemma {:induction false} CopyHasNoCycle(db: Arch, f: Fork, d: Arch, i: nat, k: nat)
    requires Valid(db) && CanFork(db, f) && ForkedInto(db, f, d) && i < |f.ids| && k > 0
    ensures Up(d.components, f.ids[i], k) != Some(f.ids[i])
  {
    UpOfCopy(db, f, d, i, k);
    var a := Up(db.components, f.components[i].id, k);
    if a.Some? {
      assert a != Some(f.components[i].id);
      var j := SourceHasCopy(db, f, a.value);
      assert j != i;
      assert f.ids[j] != f.ids[i] by { if j < i { } else { } }
    }
  }

  lemma {:induction false} ForkTableIsGood(db: Arch, f: Fork, d: Arch)
    requires Valid(db) && CanFork(db, f) && ForkedInto(db, f, d)
    ensures GoodTable(d.components)
  {
    ForkIsHierarchical(db, f, d);
    forall x | x in d.components
      ensures d.components[x].id == x
      ensures d.components[x].parent.Some? ==>
        d.components[x].parent.value in d.components
        && d.components[d.components[x].parent.value].model == d.components[x].model
    {
      ForkRowIsGood(db, f, d, x);
    }
  }

  lemma {:induction false} ForkRowIsGood(db: Arch, f: Fork, d: Arch, x: string)
    requires Valid(db) && CanFork(db, f) && ForkedInto(db, f, d) && x in d.components
    ensures d.components[x].id == x
    ensures d.components[x].parent.Some? ==>
      d.components[x].parent.value in d.components
      && d.components[d.components[x].parent.value].model == d.components[x].model
  {
    ComponentsOfFork(db, f, d, x);
    hide ForkedInto, CanFork, GoodRelations, GoodMappings, GoodOrigins, GoodModels, Hierarchical;
    if x in db.components {
      if db.components[x].parent.Some? {
        ComponentsOfFork(db, f, d, db.components[x].parent.value);
      }
    } else {
      var i :| 0 <= i < |f.ids| && f.ids[i] == x;
      CopiesAt(db, f, d, i);
      ParentOfCopy(db, f, d, i);
      if f.components[i].parent.Some? {
        var j := SourceHasCopy(db, f, f.components[i].parent.value);
        CopiesAt(db, f, d, j);
      }
    }
  }

  lemma {:induction false} ForkModelsAreGood(db: Arch, f: Fork, d: Arch)
    requires Valid(db) && CanFork(db, f) && ForkedInto(db, f, d)
    ensures GoodModels(d)
  {
    hide GoodTable, GoodRelations, GoodMappings, GoodOrigins;
    forall x | x in d.components ensures d.components[x].model in d.kinds {
      ComponentsOfFork(db, f, d, x);
      if x !in db.components {
        var i :| 0 <= i < |f.ids| && f.ids[i] == x;
        CopiesAt(db, f, d, i);
      }
    }
    var b := d.baselines[f.model];
    forall i, j | 0 <= i < j < |b.components| ensures b.components[i].id != b.components[j].id {
      assert f.components[i].id != f.components[j].id;
    }
  }

  /** A listed relation's ends have copies in the new model. */
  lemma {:induction false} EndHasCopy(db: Arch, f: Fork, d: Arch, x: string)
    requires Valid(db) && CanFork(db, f) && ForkedInto(db, f, d) && InModel(db, x, f.source)
    ensures Renamed(f, x).Some? && InModel(d, Renamed(f, x).value, f.model)
    ensures d.components[Renamed(f, x).value].origin == Some(x)
  {
    hide ForkedInto, CanFork, GoodTable, GoodRelations, GoodMappings, GoodOrigins, GoodModels;
    assert GoodTable(db.components);
    var i := SourceHasCopy(db, f, x);
    CopiesAt(db, f, d, i);
  }

  lemma {:induction false} RelationOfFork(db: Arch, f: Fork, d: Arch, i: nat)
    requires CanFork(db, f) && ForkedInto(db, f, d) && i < |f.relationIds|
    ensures |f.relations| == |f.relationIds|
    ensures f.relationIds[i] in d.relations && d.relations[f.relationIds[i]] == CopyRelation(f, i)
    ensures f.relations[i].id in db.relations && db.relations[f.relations[i].id] == f.relations[i]
    ensures f.relations[i].model == f.source
  {
    assert RelationCopies(f)[i] == CopyRelation(f, i);
    assert f.relations[i] in f.relations;
  }

  lemma {:induction false} RelationsOfFork(db: Arch, f: Fork, d: Arch, r: string)
    requires CanFork(db, f) && ForkedInto(db, f, d) && r in d.relations
    ensures r in db.relations ==> d.relations[r] == db.relations[r]
    ensures r !in db.relations ==> exists i :: 0 <= i < |f.relationIds| && f.relationIds[i] == r
  {
    assert f.relationIds[..|f.relationIds|] == f.relationIds;
  }

  lemma {:induction false} ForkRelationsAreGood(db: Arch, f: Fork, d: Arch)
    requires Valid(db) && CanFork(db, f) && ForkedInto(db, f, d)
    ensures GoodRelations(d)
  {
    forall r | r in d.relations
      ensures d.relations[r].id == r && InModel(d, d.relations[r].source, d.relations[r].model)
      ensures InModel(d, d.relations[r].target, d.relations[r].model)
    {
      ForkRelationIsGood(db, f, d, r);
    }
  }

  lemma {:induction false} ForkRelationIsGood(db: Arch, f: Fork, d: Arch, r: string)
    requires Valid(db) && CanFork(db, f) && ForkedInto(db, f, d) && r in d.relations
    ensures d.relations[r].id == r && InModel(d, d.relations[r].source, d.relations[r].model)
    ensures InModel(d, d.relations[r].target, d.relations[r].model)
  {
    hide ForkedInto, CanFork, GoodTable, GoodMappings, GoodOrigins, GoodModels, Renamed;
    RelationsOfFork(db, f, d, r);
    if r in db.relations {
      ComponentsOfFork(db, f, d, db.relations[r].source);
      ComponentsOfFork(db, f, d, db.relations[r].target);
    } else {
      var i :| 0 <= i < |f.relationIds| && f.relationIds[i] == r;
      RelationOfFork(db, f, d, i);
      EndHasCopy(db, f, d, f.relations[i].source);
      EndHasCopy(db, f, d, f.relations[i].target);
    }
  }

  lemma {:induction false} MappingOfFork(db: Arch, f: Fork, d: Arch, i: nat)
    requires CanFork(db, f) && ForkedInto(db, f, d) && i < |f.mappingIds|
    ensures f.mappingIds[i] in d.mappings && d.mappings[f.mappingIds[i]] == CopyMapping(f, db, i)
    ensures f.mappings[i] in db.mappings && InModel(db, db.mappings[f.mappings[i]].component, f.source)
  {
    assert MappingCopies(f, db)[i] == CopyMapping(f, db, i);
    assert f.mappings[i] in f.mappings;
  }

  /** A mapping row of the forked tables: an old one as it was, or the copy of a listed one. */
  ghost predicate MappingFrom(db: Arch, f: Fork, d: Arch, m: string)
    requires |f.mappings| == |f.mappingIds| && m in d.mappings
  {
    || (m in db.mappings && d.mappings[m] == db.mappings[m] && db.mappings[m].component in db.components)
    || (m !in db.mappings && exists i :: MappingCopyAt(db, f, d, m, i))
  }

  ghost predicate MappingCopyAt(db: Arch, f: Fork, d: Arch, m: string, i: int)
    requires |f.mappings| == |f.mappingIds| && m in d.mappings
  {
    && 0 <= i < |f.mappings| && f.mappingIds[i] == m && f.mappings[i] in db.mappings
    && var n := db.mappings[f.mappings[i]];
       && d.mappings[m].entity == n.entity
       && d.mappings[m].component in d.components && d.mappings[m].component !in db.components
       && d.components[d.mappings[m].component].origin == Some(n.component)
  }

  lemma {:induction false} MappingComesFrom(db: Arch, f: Fork, d: Arch, m: string)
    requires Valid(db) && CanFork(db, f) && ForkedInto(db, f, d) && m in d.mappings
    ensures |f.mappings| == |f.mappingIds| && MappingFrom(db, f, d, m)
  {
    if m !in db.mappings {
      var i :| 0 <= i < |f.mappingIds| && f.mappingIds[i] == m;
      MappingOfFork(db, f, d, i);
      var x := db.mappings[f.mappings[i]].component;
      EndHasCopy(db, f, d, x);
      hide ForkedInto, GoodTable, GoodModels, GoodRelations, GoodMappings, GoodOrigins, Renamed;
      assert GoodTable(db.components);
      var k := SourceHasCopy(db, f, x);
      CopiesAt(db, f, d, k);
      assert MappingCopyAt(db, f, d, m, i);
    }
  }

  lemma {:induction false} ForkMappingsAreSeparate(db: Arch, f: Fork, d: Arch, m: string, n: string)
    requires GoodMappings(db) && |f.mappings| == |f.mappingIds| && Distinct(f.mappings)
    requires m in d.mappings && n in d.mappings && m != n
    requires MappingFrom(db, f, d, m) && MappingFrom(db, f, d, n)
    ensures d.mappings[m] != d.mappings[n]
  {
    if m !in db.mappings && n !in db.mappings {
      var i :| MappingCopyAt(db, f, d, m, i);
      var j :| MappingCopyAt(db, f, d, n, j);
      assert f.mappings[i] != f.mappings[j];
      assert db.mappings[f.mappings[i]] != db.mappings[f.mappings[j]];
    }
  }

  lemma {:induction false} ForkMappingsDiffer(db: Arch, f: Fork, d: Arch, m: string, n: string)
    requires Valid(db) && CanFork(db, f) && ForkedInto(db, f, d)
    requires m in d.mappings && n in d.mappings && m != n
    ensures d.mappings[m] != d.mappings[n]
  {
    hide ForkedInto, MappingFrom, GoodTable, GoodModels, GoodRelations, GoodMappings, GoodOrigins;
    MappingComesFrom(db, f, d, m);
    MappingComesFrom(db, f, d, n);
    assert Distinct(f.mappings);
    ForkMappingsAreSeparate(db, f, d, m, n);
  }

  lemma {:induction false} ForkMappingsAreGood(db: Arch, f: Fork, d: Arch)
    requires Valid(db) && CanFork(db, f) && ForkedInto(db, f, d)
    ensures GoodMappings(d)
  {
    hide Valid, CanFork, ForkedInto;
    forall m | m in d.mappings ensures d.mappings[m].component in d.components {
      MappingComesFrom(db, f, d, m);
      if m in db.mappings {
        ComponentsOfFork(db, f, d, db.mappings[m].component);
      }
    }
    forall m, n | m in d.mappings && n in d.mappings && m != n ensures d.mappings[m] != d.mappings[n] {
      ForkMappingsDiffer(db, f, d, m, n);
    }
  }

  lemma {:induction false} ForkOriginsAreGood(db: Arch, f: Fork, d: Arch)
    requires Valid(db) && CanFork(db, f) && ForkedInto(db, f, d)
    ensures GoodOrigins(d)
  {
    hide Valid, CanFork, ForkedInto, SameOrigin, InBaseline;
    forall x | x in d.components && d.components[x].origin.Some?
      ensures d.components[x].model in d.baselines
      ensures InBaseline(d.baselines[d.components[x].model], d.components[x].origin.value)
    {
      ForkOriginIsInBaseline(db, f, d, x);
    }
    forall x, y | x in d.components && y in d.components && x != y
      ensures !SameOrigin(d.components[x], d.components[y])
    {
      ForkOriginsDiffer(db, f, d, x, y);
    }
  }

  lemma {:induction false} ForkOriginIsInBaseline(db: Arch, f: Fork, d: Arch, x: string)
    requires Valid(db) && CanFork(db, f) && ForkedInto(db, f, d)
    requires x in d.components && d.components[x].origin.Some?
    ensures d.components[x].model in d.baselines
    ensures InBaseline(d.baselines[d.components[x].model], d.components[x].origin.value)
  {
    ComponentsOfFork(db, f, d, x);
    if x in db.components {
      assert db.components[x].model in db.kinds;
    } else {
      var i :| 0 <= i < |f.ids| && f.ids[i] == x;
      CopiesAt(db, f, d, i);
      assert d.baselines[f.model].components[i] in d.baselines[f.model].components;
    }
  }

  lemma {:induction false} ForkOriginsDiffer(db: Arch, f: Fork, d: Arch, x: string, y: string)
    requires Valid(db) && CanFork(db, f) && ForkedInto(db, f, d)
    requires x in d.components && y in d.components && x != y
    ensures !SameOrigin(d.components[x], d.components[y])
  {
    ComponentsOfFork(db, f, d, x);
    ComponentsOfFork(db, f, d, y);
    hide ForkedInto, GoodTable, GoodRelations, GoodMappings;
    if x in db.components && y in db.components {
      assert !SameOrigin(db.components[x], db.components[y]);
    } else if x !in db.components && y !in db.components {
      var i :| 0 <= i < |f.ids| && f.ids[i] == x;
      var j :| 0 <= j < |f.ids| && f.ids[j] == y;
      CopiesAt(db, f, d, i);
      CopiesAt(db, f, d, j);
      assert f.components[i].id != f.components[j].id;
    } else {
      var known := if x in db.components then x else y;
      var copied := if x in db.components then y else x;
      var i :| 0 <= i < |f.ids| && f.ids[i] == copied;
      CopiesAt(db, f, d, i);
      assert db.components[known].model in db.kinds;
    }
  }

  lemma {:induction false} ForkKeeps(db: Arch, f: Fork, d: Arch)
    requires Valid(db) && CanFork(db, f) && ForkedInto(db, f, d)
    ensures Valid(d)
  {
    ForkTableIsGood(db, f, d);
    ForkModelsAreGood(db, f, d);
    ForkRelationsAreGood(db, f, d);
    ForkMappingsAreGood(db, f, d);
    ForkOriginsAreGood(db, f, d);
  }

  // ---------- the diff of a valid model ----------

  /** In valid tables a model with a baseline can always be compared: the unguarded lookup finds its key. */
  lemma {:induction false} ModelIsComparable(db: Arch, model: string, cs: seq<Component>)
    requires Valid(db) && model in db.baselines && Lists(cs, db.components, model)
    ensures Comparable(db.baselines[model], cs)
  {
    var b := db.baselines[model];
    ByIdMeaning(b.components);
    forall c | c in cs && c.origin.Some? ensures c.origin.value in ById(b.components) {
      assert InBaseline(b, c.origin.value);
      var f :| f in b.components && f.id == c.origin.value;
    }
    forall i, j | 0 <= i < j < |cs| && cs[i].origin.Some? ensures cs[i].origin != cs[j].origin {
      assert cs[i] in cs && cs[j] in cs && cs[i].id != cs[j].id;
      assert !SameOrigin(db.components[cs[i].id], db.components[cs[j].id]);
    }
  }

  lemma {:induction false} RowOfForkedModel(db: Arch, f: Fork, d: Arch, cs: seq<Component>, c: Component)
    returns (i: nat)
    requires Valid(db) && CanFork(db, f) && ForkedInto(db, f, d) && Lists(cs, d.components, f.model) && c in cs
    ensures i < |f.ids| == |f.components| && c == Copy(f, i)
  {
    ComponentsOfFork(db, f, d, c.id);
    assert c.id !in db.components;
    i :| 0 <= i < |f.ids| && f.ids[i] == c.id;
    CopiesAt(db, f, d, i);
  }

  lemma {:induction false} CopyIsListed(db: Arch, f: Fork, d: Arch, cs: seq<Component>, i: nat)
    requires Valid(db) && CanFork(db, f) && ForkedInto(db, f, d) && Lists(cs, d.components, f.model) && i < |f.ids|
    ensures |f.components| == |f.ids| && Copy(f, i) in cs
  {
    CopiesAt(db, f, d, i);
  }

  lemma {:induction false} EntityComesBack(db: Arch, f: Fork, d: Arch, i: nat, m: string)
    requires Valid(db) && CanFork(db, f) && ForkedInto(db, f, d) && i < |f.ids| == |f.components|
    requires m in d.mappings && d.mappings[m].component == f.ids[i]
    ensures exists n :: n in db.mappings && db.mappings[n] == Mapping(f.components[i].id, d.mappings[m].entity)
  {
    hide Valid, CanFork, ForkedInto, Renamed;
    CopiesAt(db, f, d, i);
    MappingComesFrom(db, f, d, m);
    var j :| MappingCopyAt(db, f, d, m, j);
    assert db.mappings[f.mappings[j]].component == f.components[i].id;
  }

  lemma {:induction false} EntityIsCopied(db: Arch, f: Fork, d: Arch, i: nat, n: string)
    requires Valid(db) && CanFork(db, f) && ForkedInto(db, f, d) && i < |f.ids| == |f.components|
    requires n in db.mappings && db.mappings[n].component == f.components[i].id
    ensures exists m :: m in d.mappings && d.mappings[m] == Mapping(f.ids[i], db.mappings[n].entity)
  {
    CopiesAt(db, f, d, i);
    MappingIsListed(db, f, n);
    hide Valid, CanFork, ForkedInto, Renamed;
    var j :| 0 <= j < |f.mappings| && f.mappings[j] == n;
    MappingOfFork(db, f, d, j);
    assert d.mappings[f.mappingIds[j]] == Mapping(f.ids[i], db.mappings[n].entity);
  }

  lemma {:induction false} MappingIsListed(db: Arch, f: Fork, n: string)
    requires CanFork(db, f) && n in db.mappings && InModel(db, db.mappings[n].component, f.source)
    ensures n in f.mappings && |f.mappings| == |f.mappingIds|
  {
  }

  /** The copy of a component has the copies of its mappings and no others. */
  lemma {:induction false} EntitiesOfCopy(db: Arch, f: Fork, d: Arch, i: nat)
    requires Valid(db) && CanFork(db, f) && ForkedInto(db, f, d) && i < |f.ids| == |f.components|
    ensures EntitiesOf(EntitiesMap(d), f.ids[i]) == EntitiesOf(EntitiesMap(db), f.components[i].id)
  {
    hide Valid, CanFork, ForkedInto, Renamed;
    CopiesAt(db, f, d, i);
    var x := f.components[i].id;
    var copied := EntitiesOf(EntitiesMap(d), f.ids[i]);
    var source := EntitiesOf(EntitiesMap(db), x);
    forall e | e in copied ensures e in source {
      var m :| m in d.mappings && d.mappings[m].component == f.ids[i] && d.mappings[m].entity == e;
      EntityComesBack(db, f, d, i, m);
    }
    forall e | e in source ensures e in copied {
      var n :| n in db.mappings && db.mappings[n].component == x && db.mappings[n].entity == e;
      EntityIsCopied(db, f, d, i, n);
    }
  }

  lemma {:induction false} CopyHasSameParent(db: Arch, f: Fork, d: Arch, cs: seq<Component>, i: nat)
    requires Valid(db) && CanFork(db, f) && ForkedInto(db, f, d) && Lists(cs, d.components, f.model)
    requires i < |f.ids| == |f.components|
    ensures SameParent(cs, Copy(f, i), FrozenOf(f.components[i], EntitiesMap(db)))
  {
    hide ForkedInto, CanFork, Lists, EntitiesMap, GoodTable, GoodModels, GoodRelations, GoodMappings, GoodOrigins;
    ParentOfCopy(db, f, d, i);
    if f.components[i].parent.Some? {
      assert GoodTable(db.components);
      var j := SourceHasCopy(db, f, f.components[i].parent.value);
      CopyIsListed(db, f, d, cs, j);
      assert Copy(f, j).id == Copy(f, i).parent.value && Copy(f, j).origin == f.components[i].parent;
    }
  }

  lemma {:induction false} CopyMatchesFrozen(db: Arch, f: Fork, d: Arch, cs: seq<Component>, i: nat)
    requires Valid(db) && CanFork(db, f) && ForkedInto(db, f, d) && Lists(cs, d.components, f.model)
    requires i < |f.ids| == |f.components|
    ensures ArchModel.Copies(cs, EntitiesMap(d), Copy(f, i), FrozenOf(f.components[i], EntitiesMap(db)))
  {
    hide ForkedInto, CanFork, Lists, EntitiesMap, Valid, SameParent, NewParent;
    EntitiesOfCopy(db, f, d, i);
    CopyHasSameParent(db, f, d, cs, i);
  }

  lemma {:induction false} BaselineShape(db: Arch, f: Fork, d: Arch)
    requires CanFork(db, f) && ForkedInto(db, f, d)
    ensures f.model in d.baselines
    ensures var b := d.baselines[f.model];
      && |b.components| == |f.components| == |f.ids| && DistinctIds(f.components)
      && (forall i :: 0 <= i < |b.components| ==> b.components[i] == FrozenOf(f.components[i], EntitiesMap(db)))
  {
    hide Grown, EntitiesMap;
  }

  lemma {:induction false} EndIsListed(db: Arch, f: Fork, d: Arch, cs: seq<Component>, x: string)
    requires Valid(db) && CanFork(db, f) && ForkedInto(db, f, d) && Lists(cs, d.components, f.model)
    requires InModel(db, x, f.source)
    ensures exists a :: a in cs && Some(a.id) == Renamed(f, x) && a.origin == Some(x)
  {
    EndHasCopy(db, f, d, x);
    ForkTableIsGood(db, f, d);
    hide ForkedInto, CanFork, Valid, Renamed, Hierarchical;
    assert d.components[Renamed(f, x).value] in cs;
  }

  lemma {:induction false} RelationEnds(db: Arch, f: Fork, i: nat)
    requires Valid(db) && i < |f.relations| && f.relations[i].model == f.source
    requires f.relations[i].id in db.relations && db.relations[f.relations[i].id] == f.relations[i]
    ensures InModel(db, f.relations[i].source, f.source) && InModel(db, f.relations[i].target, f.source)
  {
    hide GoodTable, GoodModels, GoodMappings, GoodOrigins;
  }

  lemma {:induction false} RelationsMatchFrozen(db: Arch, f: Fork, d: Arch, cs: seq<Component>, i: nat)
    requires Valid(db) && CanFork(db, f) && ForkedInto(db, f, d) && Lists(cs, d.components, f.model)
    requires i < |f.relationIds| == |f.relations| && |f.components| == |f.ids|
    ensures var r := f.relations[i]; RenamesTo(cs, CopyRelation(f, i), (r.kind, r.source, r.target))
  {
    hide ForkedInto, CanFork, Valid, Renamed, Lists, InModel;
    RelationOfFork(db, f, d, i);
    RelationEnds(db, f, i);
    EndIsListed(db, f, d, cs, f.relations[i].source);
    EndIsListed(db, f, d, cs, f.relations[i].target);
  }

  /** Right after the fork all lists of the diff are empty. */
  lemma {:induction false} FreshForkHasNoDiff(db: Arch, f: Fork, d: Arch, cs: seq<Component>, rs: seq<Relation>)
    requires Valid(db) && CanFork(db, f) && ForkedInto(db, f, d)
    requires Lists(cs, d.components, f.model) && ListsRelations(rs, d, f.model)
    ensures f.model in d.baselines && SameUpToOrigins(d.baselines[f.model], cs, rs, EntitiesMap(d))
    ensures Empty(DiffOf(d.baselines[f.model], cs, rs, EntitiesMap(d)))
  {
    var b := d.baselines[f.model];
    assert |f.components| == |f.ids| == |b.components| && |f.relations| == |f.relationIds| == |b.relations|;
    SameComponents(db, f, d, cs);
    SameRelations(db, f, d, cs, rs);
    ForkKeeps(db, f, d);
    ModelIsComparable(d, f.model, cs);
    EmptyIffSameUpToOrigins(b, cs, rs, EntitiesMap(d));
  }

  lemma {:induction false} SameComponents(db: Arch, f: Fork, d: Arch, cs: seq<Component>)
    requires Valid(db) && CanFork(db, f) && ForkedInto(db, f, d) && Lists(cs, d.components, f.model)
    ensures var b := d.baselines[f.model];
      && (forall c :: c in cs ==> exists k :: k in b.components && c.origin == Some(k.id))
      && (forall k :: k in b.components ==> exists c :: c in cs && c.origin == Some(k.id))
      && (forall c, k :: c in cs && k in b.components && c.origin == Some(k.id) ==>
            ArchModel.Copies(cs, EntitiesMap(d), c, k))
  {
    hide ForkedInto, CanFork, Lists, EntitiesMap, Valid, ArchModel.Copies, DistinctIds;
    BaselineShape(db, f, d);
    var b := d.baselines[f.model];
    forall c | c in cs ensures exists k :: k in b.components && c.origin == Some(k.id) {
      var i := RowOfForkedModel(db, f, d, cs, c);
      assert b.components[i] in b.components;
    }
    forall k | k in b.components ensures exists c :: c in cs && c.origin == Some(k.id) {
      var i :| 0 <= i < |b.components| && b.components[i] == k;
      CopyIsListed(db, f, d, cs, i);
    }
    forall c, k | c in cs && k in b.components && c.origin == Some(k.id)
      ensures ArchModel.Copies(cs, EntitiesMap(d), c, k)
    {
      MatchIsACopy(db, f, d, cs, c, k);
    }
  }

  lemma {:induction false} MatchIsACopy(db: Arch, f: Fork, d: Arch, cs: seq<Component>, c: Component, k: Frozen)
    requires Valid(db) && CanFork(db, f) && ForkedInto(db, f, d) && Lists(cs, d.components, f.model)
    requires f.model in d.baselines && c in cs && k in d.baselines[f.model].components && c.origin == Some(k.id)
    ensures ArchModel.Copies(cs, EntitiesMap(d), c, k)
  {
    hide ForkedInto, CanFork, Lists, EntitiesMap, Valid, ArchModel.Copies, NewParent;
    BaselineShape(db, f, d);
    var b := d.baselines[f.model];
    var i := RowOfForkedModel(db, f, d, cs, c);
    var j :| 0 <= j < |b.components| && b.components[j] == k;
    assert f.components[i].id == f.components[j].id;
    assert i == j;
    CopyMatchesFrozen(db, f, d, cs, i);
  }

  lemma {:induction false} SameRelations(db: Arch, f: Fork, d: Arch, cs: seq<Component>, rs: seq<Relation>)
    requires Valid(db) && CanFork(db, f) && ForkedInto(db, f, d)
    requires Lists(cs, d.components, f.model) && ListsRelations(rs, d, f.model)
    ensures var b := d.baselines[f.model];
      && (forall r :: r in rs ==> exists k :: k in b.relations && RenamesTo(cs, r, k))
      && (forall k :: k in b.relations ==> exists r :: r in rs && RenamesTo(cs, r, k))
  {
    var b := d.baselines[f.model];
    assert |b.relations| == |f.relations| == |f.relationIds| && |f.components| == |f.ids|;
    forall i | 0 <= i < |b.relations|
      ensures b.relations[i] == (f.relations[i].kind, f.relations[i].source, f.relations[i].target)
    {
    }
    forall x | x in db.relations ensures db.relations[x].model != f.model {
      assert InModel(db, db.relations[x].source, db.relations[x].model);
    }
    hide ForkedInto, CanFork, Lists, Valid, RenamesTo;
    forall r | r in rs ensures exists k :: k in b.relations && RenamesTo(cs, r, k) {
      RelationsOfFork(db, f, d, r.id);
      var i :| 0 <= i < |f.relationIds| && f.relationIds[i] == r.id;
      RelationOfFork(db, f, d, i);
      RelationsMatchFrozen(db, f, d, cs, i);
      assert b.relations[i] in b.relations;
    }
    forall k | k in b.relations ensures exists r :: r in rs && RenamesTo(cs, r, k) {
      var i :| 0 <= i < |b.relations| && b.relations[i] == k;
      RelationOfFork(db, f, d, i);
      RelationsMatchFrozen(db, f, d, cs, i);
      assert CopyRelation(f, i) in rs;
    }
  }

  // ---------- every sequence of forks and edits ----------

  datatype Command = NewModel(id: string) | EditRow(edit: Edit) | ForkRow(fork: Fork)

  /** One command; what is refused changes nothing. */
  ghost predicate Next(db: Arch, c: Command, d: Arch) {
    match c
    case NewModel(id) => d == if id in db.kinds then db else db.(kinds := db.kinds[id := "as_is"])
    case EditRow(e) =>
      && ((e.CreateComponent? || e.AddMappings?) ==> |e.entities| == |e.rows|)
      && d == (match Apply(db, e) case None => db case Some(k) => k)
    case ForkRow(f) => if CanFork(db, f) then ForkedInto(db, f, d) else d == db
  }

  const NO_MODELS := Arch(map[], map[], map[], map[], map[])

  ghost predicate Run(states: seq<Arch>, cmds: seq<Command>) {
    && |states| == |cmds| + 1 && states[0] == NO_MODELS
    && forall i :: 0 <= i < |cmds| ==> Next(states[i], cmds[i], states[i + 1])
  }

  lemma {:induction false} StepKeeps(db: Arch, c: Command, d: Arch)
    requires Valid(db) && Next(db, c, d)
    ensures Valid(d)
    ensures forall m :: m in db.baselines ==> m in d.baselines && d.baselines[m] == db.baselines[m]
  {
    match c
    case NewModel(id) =>
    case EditRow(e) =>
      if Apply(db, e).Some? { EditKeeps(db, e, d); }
    case ForkRow(f) =>
      if CanFork(db, f) {
        ForkKeeps(db, f, d);
        assert f.model !in db.baselines;
      }
  }

  lemma {:induction false} RunIsValid(states: seq<Arch>, cmds: seq<Command>, i: nat)
    requires Run(states, cmds) && i < |states|
    ensures Valid(states[i])
  {
    if i > 0 {
      RunIsValid(states, cmds, i - 1);
      assert Next(states[i - 1], cmds[i - 1], states[i - 1 + 1]);
      StepKeeps(states[i - 1], cmds[i - 1], states[i]);
    } else {
      assert forall x, k: nat :: k > 0 ==> Up(states[0].components, x, k) != Some(x) by {
        forall x, k: nat | k > 0 ensures Up(states[0].components, x, k) != Some(x) {
          assert Up(states[0].components, x, 0) == Some(x) && Up(states[0].components, x, 1).None?;
          UpStops(states[0].components, x, 1, k);
        }
      }
    }
  }

  /**
   Whatever edits and forks come before, the diff of a forked model is defined, and its
   lists are all empty exactly when the model is its baseline up to origin renaming.
   */
  lemma {:induction false} DiffIsDefined(states: seq<Arch>, cmds: seq<Command>, i: nat, model: string,
                                         cs: seq<Component>, rs: seq<Relation>)
    requires Run(states, cmds) && i < |states|
    requires model in states[i].baselines && Lists(cs, states[i].components, model)
    ensures var b := states[i].baselines[model]; var entities := EntitiesMap(states[i]);
      && OriginsKnown(b, cs)
      && (Empty(DiffOf(b, cs, rs, entities)) <==> SameUpToOrigins(b, cs, rs, entities))
  {
    RunIsValid(states, cmds, i);
    hide Run, Valid, Lists;
    ModelIsComparable(states[i], model, cs);
    EmptyIffSameUpToOrigins(states[i].baselines[model], cs, rs, EntitiesMap(states[i]));
  }

  /** A baseline never changes once written. */
  lemma {:induction false} BaselinesAreFrozen(states: seq<Arch>, cmds: seq<Command>, i: nat, j: nat, model: string)
    requires Run(states, cmds) && i <= j < |states| && model in states[i].baselines
    ensures model in states[j].baselines && states[j].baselines[model] == states[i].baselines[model]
    decreases j
  {
    hide Valid, Next;
    if i < j {
      BaselinesAreFrozen(states, cmds, i, j - 1, model);
      RunIsValid(states, cmds, j - 1);
      assert Next(states[j - 1], cmds[j - 1], states[j - 1 + 1]);
      StepKeeps(states[j - 1], cmds[j - 1], states[j]);
    }
  }
}
