/** The architecture tables: component, relation and mapping edits, and subtree deletion. */
module ArchStore {
  import opened Prelude
  import opened ArchModel
  import opened Hierarchy

  datatype Mapping = Mapping(component: string, entity: Entity)

  /** The tables of one workspace, each keyed by row id; kinds and baselines by model id. */
  datatype Arch = Arch(
    kinds: map<string, string>,
    baselines: map<string, Baseline>,
    components: Table,
    relations: map<string, Relation>,
    mappings: map<string, Mapping>)

  predicate InModel(db: Arch, id: string, model: string) {
    id in db.components && db.components[id].model == model
  }

  predicate Touches(r: Relation, members: set<string>) {
    r.source in members || r.target in members
  }

  function EntitiesMap(db: Arch): map<string, set<Entity>> {
    map c | c in db.components :: set m | m in db.mappings && db.mappings[m].component == c :: db.mappings[m].entity
  }

  ghost predicate InBaseline(b: Baseline, id: string) {
    exists f :: f in b.components && f.id == id
  }

  // ---------- what the schema and the edits keep ----------

  ghost predicate GoodRelations(db: Arch) {
    forall r :: r in db.relations ==>
      && db.relations[r].id == r
      && InModel(db, db.relations[r].source, db.relations[r].model)
      && InModel(db, db.relations[r].target, db.relations[r].model)
  }

  ghost predicate GoodMappings(db: Arch) {
    && (forall m :: m in db.mappings ==> db.mappings[m].component in db.components)
    && (forall m, n :: m in db.mappings && n in db.mappings && m != n ==> db.mappings[m] != db.mappings[n])
  }

  /** Origins lie in the model's own baseline and are claimed once per model. */
  ghost predicate GoodOrigins(db: Arch) {
    && (forall x :: x in db.components && db.components[x].origin.Some? ==>
          && db.components[x].model in db.baselines
          && InBaseline(db.baselines[db.components[x].model], db.components[x].origin.value))
    && (forall x, y :: x in db.components && y in db.components && x != y ==>
          !SameOrigin(db.components[x], db.components[y]))
  }

  predicate SameOrigin(a: Component, b: Component) {
    a.model == b.model && a.origin.Some? && a.origin == b.origin
  }

  ghost predicate GoodModels(db: Arch) {
    && (forall x :: x in db.components ==> db.components[x].model in db.kinds)
    && (forall m :: m in db.baselines ==> m in db.kinds && DistinctFrozen(db.baselines[m]))
  }

  ghost predicate Valid(db: Arch) {
    GoodTable(db.components) && GoodModels(db) && GoodRelations(db) && GoodMappings(db) && GoodOrigins(db)
  }

  // ---------- the edits ----------

  datatype ParentEdit = KeepParent | ClearParent | SetParent(parent: string)

  datatype Edit =
    | CreateComponent(id: string, model: string, kind: string, name: string, description: string,
                      parent: Option<string>, entities: seq<Entity>, rows: seq<string>)
    | UpdateComponent(id: string, model: string, newKind: Option<string>, newName: Option<string>,
                      newDescription: Option<string>, parentEdit: ParentEdit)
    | DeleteComponent(id: string, model: string, subtree: bool)
    | CreateRelation(id: string, model: string, kind: string, source: string, target: string, caption: Option<string>)
    | UpdateRelation(id: string, model: string, newKind: Option<string>, newCaption: Option<Option<string>>)
    | DeleteRelation(id: string)
    | AddMappings(id: string, entities: seq<Entity>, rows: seq<string>)
    | DeleteMapping(id: string)

  function Or<T>(o: Option<T>, x: T): T {
    if o.Some? then o.value else x
  }

  predicate MappingTaken(db: Arch, row: string, m: Mapping) {
    row in db.mappings || exists n :: n in db.mappings && db.mappings[n] == m
  }

  /** One transaction of inserts; a clash undoes all of them. */
  function WithMappings(db: Arch, component: string, entities: seq<Entity>, rows: seq<string>): Option<Arch>
    requires |entities| == |rows|
  {
    if entities == [] then Some(db)
    else
      var n := |entities| - 1;
      match WithMappings(db, component, entities[..n], rows[..n])
      case None => None
      case Some(d) =>
        var m := Mapping(component, entities[n]);
        if component !in d.components || MappingTaken(d, rows[n], m) then None
        else Some(d.(mappings := d.mappings[rows[n] := m]))
  }

  ghost function Below(cs: Table, id: string): set<string> {
    set x | x in cs && IsUnder(cs, x, id)
  }

  /** Everything that goes when these components go. */
  ghost function Without(db: Arch, members: set<string>): Arch {
    db.(components := db.components - members,
        relations := map r | r in db.relations && !Touches(db.relations[r], members) :: db.relations[r],
        mappings := map m | m in db.mappings && db.mappings[m].component !in members :: db.mappings[m])
  }

  predicate IsLeafWithoutRelations(db: Arch, id: string) {
    && (forall x :: x in db.components ==> db.components[x].parent != Some(id))
    && (forall r :: r in db.relations ==> !Touches(db.relations[r], {id}))
  }

  predicate ParentFits(db: Arch, parent: Option<string>, model: string) {
    parent.Some? ==> InModel(db, parent.value, model)
  }

  function Updated(c: Component, e: Edit): Component
    requires e.UpdateComponent?
  {
    c.(kind := Or(e.newKind, c.kind), name := Or(e.newName, c.name), description := Or(e.newDescription, c.description),
       parent := match e.parentEdit
                 case KeepParent => c.parent
                 case ClearParent => None
                 case SetParent(p) => Some(p))
  }

  predicate ChangesNothing(e: Edit)
    requires e.UpdateComponent?
  {
    e.newKind.None? && e.newName.None? && e.newDescription.None? && e.parentEdit.KeepParent?
  }

  /** The state after an edit; None when it is refused and rolled back. */
  ghost function Apply(db: Arch, e: Edit): Option<Arch>
    requires (e.CreateComponent? || e.AddMappings?) ==> |e.entities| == |e.rows|
  {
    match e
    case CreateComponent(id, model, kind, name, description, parent, entities, rows) =>
      if id in db.components || model !in db.kinds || !ParentFits(db, parent, model) then None
      else WithMappings(
             db.(components := db.components[id := Component(id, model, None, kind, name, description, parent)]),
             id, entities, rows)
    case UpdateComponent(id, model, _, _, _, parentEdit) =>
      if !InModel(db, id, model) || ChangesNothing(e) then None
      else if parentEdit.SetParent?
              && (!InModel(db, parentEdit.parent, model) || IsUnder(db.components, parentEdit.parent, id)) then None
      else Some(db.(components := db.components[id := Updated(db.components[id], e)]))
    case DeleteComponent(id, model, subtree) =>
      if !InModel(db, id, model) then None
      else if subtree then Some(Without(db, Below(db.components, id)))
      else if !IsLeafWithoutRelations(db, id) then None
      else Some(Without(db, {id}))
    case CreateRelation(id, model, kind, source, target, caption) =>
      if !InModel(db, source, model) || !InModel(db, target, model) || source == target then None
      else if exists r :: r in db.relations && db.relations[r].model == model && db.relations[r].kind == kind
                && db.relations[r].source == source && db.relations[r].target == target then None
      else if id in db.relations then None
      else Some(db.(relations := db.relations[id := Relation(id, model, kind, source, target, caption)]))
    case UpdateRelation(id, model, kind, caption) =>
      if id !in db.relations || db.relations[id].model != model || (kind.None? && caption.None?) then None
      else Some(db.(relations := db.relations[id :=
             db.relations[id].(kind := Or(kind, db.relations[id].kind),
                 caption := Or(caption, db.relations[id].caption))]))
    case DeleteRelation(id) => Some(db.(relations := db.relations - {id}))
    case AddMappings(id, entities, rows) => WithMappings(db, id, entities, rows)
    case DeleteMapping(id) => Some(db.(mappings := db.mappings - {id}))
  }

  // ---------- every edit keeps all of it ----------

  lemma {:induction false} WithMappingsKeeps(
      db: Arch, component: string, entities: seq<Entity>, rows: seq<string>, d: Arch)
    requires Valid(db) && |entities| == |rows| && WithMappings(db, component, entities, rows) == Some(d)
    ensures Valid(d) && d == db.(mappings := d.mappings)
  {
    hide GoodTable, GoodOrigins, GoodModels;
    if entities != [] {
      var n := |entities| - 1;
      var e := WithMappings(db, component, entities[..n], rows[..n]).value;
      WithMappingsKeeps(db, component, entities[..n], rows[..n], e);
      MappingsAreSeparate(e, d);
    }
  }

  /** Only the mapping table differs, and it is still good. */
  lemma {:induction false} MappingsAreSeparate(db: Arch, d: Arch)
    requires Valid(db) && d == db.(mappings := d.mappings) && GoodMappings(d)
    ensures Valid(d)
  {
  }

  lemma {:induction false} CreatedTableIsGood(cs: Table, c: Component)
    requires GoodTable(cs) && c.id !in cs
    requires c.parent.Some? ==> c.parent.value in cs && cs[c.parent.value].model == c.model
    ensures GoodTable(cs[c.id := c])
  {
    var ds := cs[c.id := c];
    forall x | x != c.id ensures ParentOf(ds, x) == ParentOf(cs, x) {
    }
    if c.parent.None? {
      DetachKeepsHierarchy(cs, ds, c.id);
    } else {
      forall k: nat ensures Up(cs, c.parent.value, k) != Some(c.id) {
      }
      ReparentKeepsHierarchyIff(cs, ds, c.id, c.parent.value);
    }
  }

  /** No component moves to another model or changes its origin; new ones have no origin. */
  ghost predicate SameHomes(db: Arch, d: Arch) {
    && d == db.(components := d.components) && db.components.Keys <= d.components.Keys
    && (forall x :: x in db.components ==>
          d.components[x].model == db.components[x].model && d.components[x].origin == db.components[x].origin)
    && (forall x :: x in d.components && x !in db.components ==>
          d.components[x].origin.None? && d.components[x].model in db.kinds)
  }

  lemma {:induction false} SameHomesKeepOrigins(db: Arch, d: Arch)
    requires GoodOrigins(db) && SameHomes(db, d)
    ensures GoodOrigins(d)
  {
    forall x, y | x in d.components && y in d.components && x != y
      ensures !SameOrigin(d.components[x], d.components[y])
    {
      if x in db.components && y in db.components {
        assert !SameOrigin(db.components[x], db.components[y]);
      }
    }
  }

  lemma {:induction false} SameHomesKeep(db: Arch, d: Arch)
    requires Valid(db) && SameHomes(db, d) && GoodTable(d.components)
    ensures Valid(d)
  {
    hide GoodTable, GoodOrigins;
    SameHomesKeepOrigins(db, d);
    assert GoodModels(d) by { hide GoodRelations, GoodMappings; }
    assert GoodMappings(d) by { hide GoodRelations, GoodModels; }
  }

  lemma {:induction false} CreateKeeps(db: Arch, e: Edit, d: Arch)
    requires Valid(db) && e.CreateComponent? && |e.entities| == |e.rows| && Apply(db, e) == Some(d)
    ensures Valid(d) && d.baselines == db.baselines && d.kinds == db.kinds
  {
    hide GoodTable, WithMappings, GoodOrigins, GoodModels, GoodRelations, GoodMappings;
    var c := Component(e.id, e.model, None, e.kind, e.name, e.description, e.parent);
    var m := db.(components := db.components[e.id := c]);
    CreatedTableIsGood(db.components, c);
    SameHomesKeep(db, m);
    WithMappingsKeeps(m, e.id, e.entities, e.rows, d);
  }

  lemma {:induction false} UpdatedTableIsGood(cs: Table, e: Edit)
    requires GoodTable(cs) && e.UpdateComponent? && e.id in cs && cs[e.id].model == e.model
    requires e.parentEdit.SetParent? ==>
      && e.parentEdit.parent in cs && cs[e.parentEdit.parent].model == e.model
      && !IsUnder(cs, e.parentEdit.parent, e.id)
    ensures GoodTable(cs[e.id := Updated(cs[e.id], e)])
  {
    var ds := cs[e.id := Updated(cs[e.id], e)];
    forall x | x != e.id ensures ParentOf(ds, x) == ParentOf(cs, x) {
    }
    match e.parentEdit
    case KeepParent => PartIsHierarchical(cs, ds);
    case ClearParent => DetachKeepsHierarchy(cs, ds, e.id);
    case SetParent(p) => ReparentKeepsHierarchyIff(cs, ds, e.id, p);
  }

  lemma {:induction false} UpdateKeeps(db: Arch, e: Edit, d: Arch)
    requires Valid(db) && e.UpdateComponent? && Apply(db, e) == Some(d)
    ensures Valid(d) && d.baselines == db.baselines && d.kinds == db.kinds
  {
    hide GoodTable, IsUnder, GoodOrigins, GoodModels, GoodRelations, GoodMappings;
    UpdatedTableIsGood(db.components, e);
    SameHomesKeep(db, d);
  }

  lemma {:induction false} WithoutKeepsTable(cs: Table, members: set<string>)
    requires GoodTable(cs)
    requires forall x :: x in cs && x !in members && cs[x].parent.Some? ==> cs[x].parent.value !in members
    ensures GoodTable(cs - members)
  {
    var ds := cs - members;
    forall x ensures ParentOf(ds, x).Some? ==> ParentOf(ds, x) == ParentOf(cs, x) {
    }
    PartIsHierarchical(cs, ds);
    hide Hierarchical;
  }

  lemma {:induction false} WithoutKeepsRows(db: Arch, members: set<string>)
    requires GoodRelations(db) && GoodMappings(db)
    ensures GoodRelations(Without(db, members)) && GoodMappings(Without(db, members))
  {
  }

  lemma {:induction false} WithoutKeepsOrigins(db: Arch, members: set<string>)
    requires GoodOrigins(db) && GoodModels(db)
    ensures GoodOrigins(Without(db, members)) && GoodModels(Without(db, members))
  {
  }

  /** Removing components that no remaining one hangs under. */
  lemma {:induction false} WithoutKeeps(db: Arch, members: set<string>)
    requires Valid(db)
    requires forall x :: x in db.components && x !in members && db.components[x].parent.Some? ==>
      db.components[x].parent.value !in members
    ensures Valid(Without(db, members))
  {
    hide GoodTable, GoodOrigins, GoodModels, GoodRelations, GoodMappings;
    WithoutKeepsTable(db.components, members);
    WithoutKeepsRows(db, members);
    WithoutKeepsOrigins(db, members);
  }

  lemma {:induction false} ChildOfMemberIsMember(cs: Table, id: string, x: string)
    requires x in cs && cs[x].parent.Some? && IsUnder(cs, cs[x].parent.value, id)
    ensures IsUnder(cs, x, id)
  {
    var k: nat :| Up(cs, cs[x].parent.value, k) == Some(id);
    assert Up(cs, x, 0) == Some(x) && Up(cs, x, 1) == cs[x].parent;
    UpAdd(cs, x, 1, k);
  }

  lemma {:induction false} DeleteKeeps(db: Arch, e: Edit, d: Arch)
    requires Valid(db) && e.DeleteComponent? && Apply(db, e) == Some(d)
    ensures Valid(d) && d.baselines == db.baselines && d.kinds == db.kinds
  {
    var members := if e.subtree then Below(db.components, e.id) else {e.id};
    forall x | x in db.components && x !in members && db.components[x].parent.Some?
      ensures db.components[x].parent.value !in members
    {
      if e.subtree && db.components[x].parent.value in members {
        ChildOfMemberIsMember(db.components, e.id, x);
      }
    }
    hide Valid;
    WithoutKeeps(db, members);
  }

  lemma {:induction false} RelationEditsKeep(db: Arch, e: Edit, d: Arch)
    requires Valid(db) && (e.CreateRelation? || e.UpdateRelation? || e.DeleteRelation?) && Apply(db, e) == Some(d)
    ensures Valid(d) && d == db.(relations := d.relations)
  {
    hide GoodTable, GoodModels, GoodMappings, GoodOrigins;
    assert GoodRelations(d);
    RelationsAreSeparate(db, d);
  }

  lemma {:induction false} RelationsAreSeparate(db: Arch, d: Arch)
    requires Valid(db) && d == db.(relations := d.relations) && GoodRelations(d)
    ensures Valid(d)
  {
  }

  /** Every component, relation and mapping edit keeps the tables valid and the baselines as they were. */
  lemma {:induction false} EditKeeps(db: Arch, e: Edit, d: Arch)
    requires (e.CreateComponent? || e.AddMappings?) ==> |e.entities| == |e.rows|
    requires Valid(db) && Apply(db, e) == Some(d)
    ensures Valid(d) && d.baselines == db.baselines && d.kinds == db.kinds
  {
    match e
    case CreateComponent(_, _, _, _, _, _, _, _) => CreateKeeps(db, e, d);
    case UpdateComponent(_, _, _, _, _, _) => UpdateKeeps(db, e, d);
    case DeleteComponent(_, _, _) => DeleteKeeps(db, e, d);
    case CreateRelation(_, _, _, _, _, _) => RelationEditsKeep(db, e, d);
    case UpdateRelation(_, _, _, _) => RelationEditsKeep(db, e, d);
    case DeleteRelation(_) => RelationEditsKeep(db, e, d);
    case AddMappings(id, entities, rows) => WithMappingsKeeps(db, id, entities, rows, d);
    case DeleteMapping(_) =>
      assert GoodMappings(d);
      MappingsAreSeparate(db, d);
  }

  // ---------- what an edit asks for and does, read off the tables ----------

  ghost predicate PartOf(db: Arch, id: string, model: string) {
    exists c :: c == id && c in db.components && db.components[c].model == model
  }

  /** The component is there, the row ids are new, and nothing is mapped to it twice. */
  ghost predicate Mappable(db: Arch, component: string, entities: seq<Entity>, rows: seq<string>)
    requires |entities| == |rows|
  {
    && (entities != [] ==> component in db.components)
    && (forall i :: 0 <= i < |rows| ==>
          rows[i] !in db.mappings && !IsMapped(db, component, entities[i]))
    && (forall i, j :: 0 <= i < j < |rows| ==> rows[i] != rows[j] && entities[i] != entities[j])
  }

  ghost predicate IsMapped(db: Arch, component: string, entity: Entity) {
    exists n :: n in db.mappings && db.mappings[n].component == component && db.mappings[n].entity == entity
  }

  /** One row for each entity is added, and nothing else. */
  ghost predicate Mapped(before: map<string, Mapping>, after: map<string, Mapping>, component: string,
                         entities: seq<Entity>, rows: seq<string>)
    requires |entities| == |rows|
  {
    && (forall m :: m in after <==> m in before || m in rows)
    && (forall m :: m in before ==> m in after && after[m] == before[m])
    && (forall i :: 0 <= i < |rows| ==> rows[i] in after && after[rows[i]] == Mapping(component, entities[i]))
  }

  /** A batch of mappings goes in exactly when all of it fits. */
  lemma {:induction false} WithMappingsIff(db: Arch, component: string, entities: seq<Entity>, rows: seq<string>)
    requires |entities| == |rows|
    ensures WithMappings(db, component, entities, rows).Some? <==> Mappable(db, component, entities, rows)
    ensures WithMappings(db, component, entities, rows).Some? ==>
      Mapped(db.mappings, WithMappings(db, component, entities, rows).value.mappings, component, entities, rows)
      && WithMappings(db, component, entities, rows).value.components == db.components
    decreases |entities|
  {
    if entities != [] {
      var n := |entities| - 1;
      WithMappingsIff(db, component, entities[..n], rows[..n]);
      MappableNext(db, component, entities, rows);
      var d := WithMappings(db, component, entities[..n], rows[..n]);
      if d.Some? {
        TakenIff(db, d.value, component, entities, rows);
        if rows[n] !in d.value.mappings {
          MappedNext(db.mappings, d.value.mappings, component, entities, rows);
        }
      }
      hide Mappable, Mapped, IsMapped;
    }
  }

  lemma {:induction false} MappedNext(
      before: map<string, Mapping>, after: map<string, Mapping>, component: string,
      entities: seq<Entity>, rows: seq<string>)
    requires |entities| == |rows| > 0
    requires var n := |rows| - 1; Mapped(before, after, component, entities[..n], rows[..n]) && rows[n] !in after
    ensures var n := |rows| - 1;
      Mapped(before, after[rows[n] := Mapping(component, entities[n])], component, entities, rows)
  {
    var n := |rows| - 1;
    assert rows == rows[..n] + [rows[n]];
    assert forall i :: 0 <= i < n ==> rows[..n][i] == rows[i] && entities[..n][i] == entities[i];
  }

  lemma {:induction false} MappableNext(db: Arch, component: string, entities: seq<Entity>, rows: seq<string>)
    requires |entities| == |rows| > 0
    ensures var n := |entities| - 1;
      Mappable(db, component, entities, rows) <==>
        && Mappable(db, component, entities[..n], rows[..n]) && component in db.components
        && rows[n] !in db.mappings && !IsMapped(db, component, entities[n])
        && rows[n] !in rows[..n] && entities[n] !in entities[..n]
  {
    var n := |entities| - 1;
    hide IsMapped;
    assert forall i :: 0 <= i < n ==> rows[..n][i] == rows[i] && entities[..n][i] == entities[i];
  }

  lemma {:induction false} TakenIff(db: Arch, d: Arch, component: string, entities: seq<Entity>, rows: seq<string>)
    requires |entities| == |rows| > 0
    requires var n := |entities| - 1; Mapped(db.mappings, d.mappings, component, entities[..n], rows[..n])
    ensures var n := |entities| - 1;
      MappingTaken(d, rows[n], Mapping(component, entities[n])) <==>
        || rows[n] in db.mappings || IsMapped(db, component, entities[n])
        || rows[n] in rows[..n] || entities[n] in entities[..n]
  {
    var n := |entities| - 1;
    if entities[n] in entities[..n] {
      var i :| 0 <= i < n && entities[..n][i] == entities[n];
      assert d.mappings[rows[..n][i]] == Mapping(component, entities[n]);
    }
    if k :| k in db.mappings && db.mappings[k].component == component && db.mappings[k].entity == entities[n] {
      assert d.mappings[k] == Mapping(component, entities[n]);
    }
    if k :| k in d.mappings && d.mappings[k] == Mapping(component, entities[n]) {
      if k !in db.mappings {
        var i :| 0 <= i < n && rows[..n][i] == k;
        assert d.mappings[rows[..n][i]] == Mapping(component, entities[..n][i]);
      }
    }
  }

  /** The entities a component is frozen with are those mapped to it. */
  lemma {:induction false} EntitiesAreMapped(db: Arch, c: string, x: Entity)
    requires c in db.components
    ensures x in EntitiesMap(db)[c] <==> IsMapped(db, c, x)
  {
    if n :| n in db.mappings && db.mappings[n].component == c && db.mappings[n].entity == x {
      assert n in (set m | m in db.mappings && db.mappings[m].component == c);
    }
  }

  /** When an edit is accepted. */
  ghost predicate Accepts(db: Arch, e: Edit)
    requires (e.CreateComponent? || e.AddMappings?) ==> |e.entities| == |e.rows|
  {
    match e
    case CreateComponent(id, model, _, _, _, parent, entities, rows) =>
      && id !in db.components && model in db.kinds && (parent.Some? ==> PartOf(db, parent.value, model))
      && (forall i, j :: 0 <= i < j < |rows| ==> rows[i] != rows[j] && entities[i] != entities[j])
      && (forall i :: 0 <= i < |rows| ==> rows[i] !in db.mappings)
    case UpdateComponent(id, model, kind, name, description, parentEdit) =>
      && PartOf(db, id, model)
      && !(kind == None && name == None && description == None && parentEdit == KeepParent)
      && (parentEdit.SetParent? ==>
            PartOf(db, parentEdit.parent, model) && !IsUnder(db.components, parentEdit.parent, id))
    case DeleteComponent(id, model, subtree) =>
      && PartOf(db, id, model)
      && (subtree
          || ((forall x :: x in db.components && db.components[x].parent.Some? ==>
                 db.components[x].parent.value != id)
              && forall r :: r in db.relations ==> db.relations[r].source != id && db.relations[r].target != id))
    case CreateRelation(id, model, kind, source, target, _) =>
      && id !in db.relations && PartOf(db, source, model) && PartOf(db, target, model) && source != target
      && forall r :: r in db.relations ==>
           (db.relations[r].model, db.relations[r].kind, db.relations[r].source, db.relations[r].target)
           != (model, kind, source, target)
    case UpdateRelation(id, model, kind, caption) =>
      id in db.relations && db.relations[id].model == model && (kind.Some? || caption.Some?)
    case DeleteRelation(_) => true
    case AddMappings(id, entities, rows) => Mappable(db, id, entities, rows)
    case DeleteMapping(_) => true
  }

  /** An edit is refused exactly when something stands against it. */
  lemma {:induction false} AcceptsIff(db: Arch, e: Edit)
    requires Valid(db) && ((e.CreateComponent? || e.AddMappings?) ==> |e.entities| == |e.rows|)
    ensures Apply(db, e).Some? <==> Accepts(db, e)
  {
    match e
    case CreateComponent(_, _, _, _, _, _, _, _) => CreateAcceptsIff(db, e);
    case AddMappings(id, entities, rows) => WithMappingsIff(db, id, entities, rows);
    case DeleteComponent(_, _, _) => DeleteAcceptsIff(db, e);
    case _ => OtherAcceptsIff(db, e);
  }

  lemma {:induction false} CreateAcceptsIff(db: Arch, e: Edit)
    requires Valid(db) && e.CreateComponent? && |e.entities| == |e.rows|
    ensures Apply(db, e).Some? <==> Accepts(db, e)
  {
    var row := Component(e.id, e.model, None, e.kind, e.name, e.description, e.parent);
    var d := db.(components := db.components[e.id := row]);
    WithMappingsIff(d, e.id, e.entities, e.rows);
    if e.id !in db.components {
      NothingMappedYet(db, d, e.id);
    }
    hide WithMappings, Valid, IsMapped;
  }

  lemma {:induction false} DeleteAcceptsIff(db: Arch, e: Edit)
    requires e.DeleteComponent?
    ensures Apply(db, e).Some? <==> Accepts(db, e)
  {
    hide Below, Without;
    forall x | x in db.components
      ensures db.components[x].parent != Some(e.id) <==>
              (db.components[x].parent.Some? ==> db.components[x].parent.value != e.id)
    {
    }
  }

  lemma {:induction false} OtherAcceptsIff(db: Arch, e: Edit)
    requires !e.CreateComponent? && !e.AddMappings? && !e.DeleteComponent?
    ensures Apply(db, e).Some? <==> Accepts(db, e)
  {
    hide IsUnder, Updated;
  }

  lemma {:induction false} NothingMappedYet(db: Arch, d: Arch, id: string)
    requires Valid(db) && id !in db.components && d.mappings == db.mappings
    ensures forall entity :: !IsMapped(d, id, entity)
  {
  }

  /** x goes when e is carried out: the component itself, and with `subtree` all that hangs under it. */
  ghost predicate Goes(db: Arch, e: Edit, x: string)
    requires e.DeleteComponent?
  {
    if e.subtree then x in db.components && IsUnder(db.components, x, e.id) else x == e.id
  }

  /** What is left: the other components, the relations between them, and their mappings, all unchanged. */
  ghost predicate Remains(db: Arch, e: Edit, d: Arch)
    requires e.DeleteComponent?
  {
    && (forall x :: x in d.components <==> x in db.components && !Goes(db, e, x))
    && (forall x :: x in d.components ==> d.components[x] == db.components[x])
    && (forall r :: r in d.relations <==>
          r in db.relations && !Goes(db, e, db.relations[r].source) && !Goes(db, e, db.relations[r].target))
    && (forall r :: r in d.relations ==> d.relations[r] == db.relations[r])
    && (forall m :: m in d.mappings <==> m in db.mappings && !Goes(db, e, db.mappings[m].component))
    && (forall m :: m in d.mappings ==> d.mappings[m] == db.mappings[m])
  }

  /** The component after an update: a field that was given is new, every other is the old one. */
  ghost predicate IsUpdated(c: Component, e: Edit, next: Component)
    requires e.UpdateComponent?
  {
    && (next.id, next.model, next.origin) == (c.id, c.model, c.origin)
    && (if e.newKind.Some? then e.newKind == Some(next.kind) else next.kind == c.kind)
    && (if e.newName.Some? then e.newName == Some(next.name) else next.name == c.name)
    && (if e.newDescription.Some? then e.newDescription == Some(next.description)
        else next.description == c.description)
    && (e.parentEdit == KeepParent ==> next.parent == c.parent)
    && (e.parentEdit == ClearParent ==> next.parent == None)
    && (e.parentEdit.SetParent? ==> next.parent == Some(e.parentEdit.parent))
  }

  /** The tables after an accepted edit. */
  ghost predicate Leaves(db: Arch, e: Edit, d: Arch)
    requires (e.CreateComponent? || e.AddMappings?) ==> |e.entities| == |e.rows|
  {
    && d.kinds == db.kinds && d.baselines == db.baselines
    && match e
       case CreateComponent(id, model, kind, name, description, parent, entities, rows) =>
         && d.components == db.components[id := Component(id, model, None, kind, name, description, parent)]
         && d.relations == db.relations && Mapped(db.mappings, d.mappings, id, entities, rows)
       case UpdateComponent(id, _, _, _, _, _) =>
         && d.relations == db.relations && d.mappings == db.mappings
         && id in db.components && d.components == db.components[id := RowOr(d, id, db.components[id])]
         && IsUpdated(db.components[id], e, RowOr(d, id, db.components[id]))
       case DeleteComponent(_, _, _) => Remains(db, e, d)
       case CreateRelation(id, model, kind, source, target, caption) =>
         && d.components == db.components && d.mappings == db.mappings
         && d.relations == db.relations[id := Relation(id, model, kind, source, target, caption)]
       case UpdateRelation(id, _, kind, caption) =>
         && d.components == db.components && d.mappings == db.mappings && id in db.relations
         && var r := db.relations[id];
         d.relations == db.relations[id := Relation(
           r.id, r.model, if kind.Some? then kind.value else r.kind, r.source, r.target,
           if caption.Some? then caption.value else r.caption)]
       case DeleteRelation(id) =>
         && d.components == db.components && d.mappings == db.mappings
         && (forall r :: r in d.relations <==> r in db.relations && r != id)
         && (forall r :: r in d.relations ==> d.relations[r] == db.relations[r])
       case AddMappings(id, entities, rows) =>
         && d.components == db.components && d.relations == db.relations
         && Mapped(db.mappings, d.mappings, id, entities, rows)
       case DeleteMapping(id) =>
         && d.components == db.components && d.relations == db.relations
         && (forall m :: m in d.mappings <==> m in db.mappings && m != id)
         && (forall m :: m in d.mappings ==> d.mappings[m] == db.mappings[m])
  }

  function RowOr(db: Arch, id: string, other: Component): Component {
    if id in db.components then db.components[id] else other
  }

  /** An accepted edit leaves exactly these tables. */
  lemma {:induction false} EditLeaves(db: Arch, e: Edit, d: Arch)
    requires (e.CreateComponent? || e.AddMappings?) ==> |e.entities| == |e.rows|
    requires Apply(db, e) == Some(d)
    ensures Leaves(db, e, d)
  {
    match e
    case CreateComponent(id, model, kind, name, description, parent, entities, rows) =>
      var row := Component(id, model, None, kind, name, description, parent);
      WithMappingsLeaves(db.(components := db.components[id := row]), id, entities, rows, d);
      hide WithMappings, Mapped;
    case AddMappings(id, entities, rows) =>
      WithMappingsLeaves(db, id, entities, rows, d);
      hide WithMappings, Mapped;
    case DeleteComponent(_, _, _) => DeletionLeaves(db, e, d);
    case UpdateComponent(_, _, _, _, _, _) => UpdateLeaves(db, e, d);
    case _ =>
  }

  lemma {:induction false} WithMappingsLeaves(
      db: Arch, component: string, entities: seq<Entity>, rows: seq<string>, d: Arch)
    requires |entities| == |rows| && WithMappings(db, component, entities, rows) == Some(d)
    ensures d == db.(mappings := d.mappings) && Mapped(db.mappings, d.mappings, component, entities, rows)
    decreases |entities|
  {
    WithMappingsIff(db, component, entities, rows);
    if entities != [] {
      hide Mapped, MappingTaken;
      var n := |entities| - 1;
      WithMappingsLeaves(db, component, entities[..n], rows[..n],
                         WithMappings(db, component, entities[..n], rows[..n]).value);
    }
  }

  lemma {:induction false} DeletionLeaves(db: Arch, e: Edit, d: Arch)
    requires e.DeleteComponent? && Apply(db, e) == Some(d)
    ensures Leaves(db, e, d)
  {
    var members := if e.subtree then Below(db.components, e.id) else {e.id};
    forall x ensures x in members <==> Goes(db, e, x) {
    }
    hide IsUnder, Below, Goes, IsLeafWithoutRelations, Without;
    WithoutLeaves(db, members, e);
    assert d == Without(db, members);
    WithoutKeepsModels(db, members);
  }

  lemma {:induction false} WithoutKeepsModels(db: Arch, members: set<string>)
    ensures Without(db, members).kinds == db.kinds && Without(db, members).baselines == db.baselines
  {
  }

  lemma {:induction false} WithoutLeaves(db: Arch, members: set<string>, e: Edit)
    requires e.DeleteComponent? && forall x :: x in members <==> Goes(db, e, x)
    ensures Remains(db, e, Without(db, members))
  {
    hide Goes;
    var d := Without(db, members);
    forall r | r in db.relations
      ensures Touches(db.relations[r], members) <==>
              Goes(db, e, db.relations[r].source) || Goes(db, e, db.relations[r].target)
    {
    }
    hide Touches;
  }

  lemma {:induction false} UpdateLeaves(db: Arch, e: Edit, d: Arch)
    requires e.UpdateComponent? && Apply(db, e) == Some(d)
    ensures Leaves(db, e, d)
  {
    hide IsUnder;
  }

  // ---------- deletion, statement by statement ----------

  /** DELETE of one component row: refused while a child or a touching relation remains. */
  function DeleteRow(db: Arch, id: string): Option<Arch> {
    if IsLeafWithoutRelations(db, id) then Some(db.(components := db.components - {id})) else None
  }

  function RelationsTouching(db: Arch, members: set<string>): set<string> {
    set r | r in db.relations && Touches(db.relations[r], members)
  }

  function MappingsOf(db: Arch, members: set<string>): set<string> {
    set m | m in db.mappings && db.mappings[m].component in members
  }

  datatype Counts = Counts(components: nat, relations: nat, mappings: nat)

  /** The members before n are gone with nothing left hanging under them. */
  ghost predicate Cleared(db: Arch, d: Arch, members: seq<string>, n: nat)
    requires n <= |members|
  {
    && d.components == db.components - Elems(members[..n])
    && (forall r :: r in d.relations ==> !Touches(d.relations[r], Elems(members)))
    && d.kinds == db.kinds && d.baselines == db.baselines
  }

  /** Each member's children come before it. */
  ghost predicate ChildrenFirst(cs: Table, members: seq<string>) {
    forall i, x :: 0 <= i < |members| && x in cs && cs[x].parent == Some(members[i]) ==> ComesBefore(members, i, x)
  }

  ghost predicate ComesBefore(members: seq<string>, i: nat, x: string)
    requires i <= |members|
  {
    exists j :: 0 <= j < i && members[j] == x
  }

  lemma {:induction false} NextRowIsFree(db: Arch, d: Arch, members: seq<string>, n: nat)
    requires n < |members| && Cleared(db, d, members, n) && ChildrenFirst(db.components, members)
    ensures IsLeafWithoutRelations(d, members[n])
    ensures Cleared(db, d.(components := d.components - {members[n]}), members, n + 1)
  {
    var removed := Elems(members[..n]);
    forall x | x in db.components && db.components[x].parent == Some(members[n]) ensures x in removed {
      assert ComesBefore(members, n, x);
      var j :| 0 <= j < n && members[j] == x;
      assert members[..n][j] == x;
    }
    forall r | r in d.relations ensures !Touches(d.relations[r], {members[n]}) {
      assert members[n] in Elems(members);
    }
    assert members[..n + 1] == members[..n] + [members[n]];
    assert Elems(members[..n + 1]) == removed + {members[n]};
  }

  /** In the deepest-first order of a subtree every child comes before its parent. */
  lemma {:induction false} DeepestFirstPutsChildrenFirst(cs: Table, root: string, rows: seq<Row>, members: seq<string>)
    requires GoodTable(cs) && Hierarchy.GoodRows(cs, root, rows) && Descending(rows)
    requires forall d :: IsListed(rows, d) <==> d in cs && IsUnder(cs, d, root)
    requires |members| == |rows| && forall i :: 0 <= i < |rows| ==> members[i] == rows[i].0
    ensures ChildrenFirst(cs, members)
  {
    forall i, x | 0 <= i < |members| && x in cs && cs[x].parent == Some(members[i]) ensures ComesBefore(members, i, x) {
      assert Up(cs, members[i], rows[i].1) == Some(root);
      ChildOfMemberIsMember(cs, root, x);
      assert IsListed(rows, x);
      var j :| 0 <= j < |rows| && rows[j].0 == x;
      DepthOfChild(cs, root, x, rows[j].1, rows[i].1);
      assert members[j] == x;
    }
  }

  lemma {:induction false} DepthOfChild(cs: Table, root: string, x: string, k: nat, n: nat)
    requires Hierarchical(cs) && x in cs && cs[x].parent.Some?
    requires Up(cs, x, k) == Some(root) && Up(cs, cs[x].parent.value, n) == Some(root)
    ensures k == n + 1
  {
    assert Up(cs, x, 0) == Some(x) && Up(cs, x, 1) == cs[x].parent;
    UpAdd(cs, x, 1, n);
    if k < n + 1 {
      UpAdd(cs, x, k, n + 1 - k);
    } else if k > n + 1 {
      UpAdd(cs, x, n + 1, k - (n + 1));
    }
  }

  class Store {
    var db: Arch

    /** (id, depth) of the subtree, deepest first, as ids. */
    method SubtreeMembers(model: string, listing: seq<Component>, id: string) returns (members: seq<string>)
      requires Valid(db) && Lists(listing, db.components, model) && InModel(db, id, model)
      ensures ChildrenFirst(db.components, members)
      ensures Elems(members) == Below(db.components, id) && |members| == |Below(db.components, id)|
    {
      var found := SubtreeRows(db.components, listing, model, id);
      var rows := DeepestFirst(found);
      DeepestFirstDescends(found);
      RearrangedRows(db.components, id, found, rows);
      members := seq(|rows|, i requires 0 <= i < |rows| => rows[i].0);
      DeepestFirstPutsChildrenFirst(db.components, id, rows, members);
      MembersAreBelow(db.components, id, rows, members);
    }

    /** Subtree deletion: relations, then mappings, then the components one row at a time. */
    method DeleteSubtree(model: string, listing: seq<Component>, id: string) returns (counts: Option<Counts>)
      requires Valid(db) && Lists(listing, db.components, model) && InModel(db, id, model)
      modifies this
      ensures counts.Some?
      ensures Valid(db) && db == Without(old(db), Below(old(db).components, id))
      ensures var gone := Below(old(db).components, id);
        && counts.value == Counts(|gone|, |RelationsTouching(old(db), gone)|, |MappingsOf(old(db), gone)|)
        && (forall r :: r in RelationsTouching(old(db), gone) <==> r in old(db).relations && r !in db.relations)
        && (forall m :: m in MappingsOf(old(db), gone) <==> m in old(db).mappings && m !in db.mappings)
    {
      hide Valid, ChildrenFirst, Below, Cleared, Without;
      var before := db;
      SubtreeGoes(db, id, model);
      var members := SubtreeMembers(model, listing, id);
      var doomed := Elems(members);
      counts := Some(Counts(|members|, |RelationsTouching(db, doomed)|, |MappingsOf(db, doomed)|));
      db := db.(
        relations := map r | r in db.relations && !Touches(db.relations[r], doomed) :: db.relations[r],
        mappings := map m | m in db.mappings && db.mappings[m].component !in doomed :: db.mappings[m]);
      RowsLeft(before, db, members);
      var ok := DeleteRows(members, before);
      AllCleared(before, db, members);
    }

    /** The component rows in the given order; none is ever refused. */
    method DeleteRows(members: seq<string>, ghost before: Arch) returns (ok: bool)
      requires Cleared(before, db, members, 0) && ChildrenFirst(before.components, members)
      modifies this
      ensures ok && Cleared(before, db, members, |members|)
      ensures db.relations == old(db.relations) && db.mappings == old(db.mappings)
    {
      hide Cleared, ChildrenFirst, IsLeafWithoutRelations;
      for i := 0 to |members|
        invariant Cleared(before, db, members, i)
        invariant db.relations == old(db.relations) && db.mappings == old(db.mappings)
      {
        NextRowIsFree(before, db, members, i);
        var next := DeleteRow(db, members[i]);
        if next.None? { return false; }
        db := next.value;
      }
      ok := true;
    }

    /** Without `subtree` a component with children or relations is kept; its mappings go with it. */
    method DeleteLeaf(model: string, id: string) returns (counts: Option<Counts>)
      requires Valid(db) && InModel(db, id, model)
      modifies this
      ensures counts.Some? <==> Apply(old(db), DeleteComponent(id, model, false)).Some?
      ensures counts.Some? ==>
        && Some(db) == Apply(old(db), DeleteComponent(id, model, false))
        && counts.value == Counts(1, 0, |MappingsOf(old(db), {id})|)
        && (forall m :: m in MappingsOf(old(db), {id}) <==> m in old(db).mappings && m !in db.mappings)
      ensures counts.None? ==> db == old(db)
    {
      hide Valid, Without, IsLeafWithoutRelations;
      if !IsLeafWithoutRelations(db, id) { return None; }
      counts := Some(Counts(1, 0, |MappingsOf(db, {id})|));
      db := db.(components := db.components - {id},
                mappings := map m | m in db.mappings && db.mappings[m].component != id :: db.mappings[m]);
      LeafGoes(old(db), id);
    }

    /** One transaction of mapping inserts, rolled back as a whole at the first clash. */
    method InsertMappings(component: string, entities: seq<Entity>, rows: seq<string>) returns (ok: bool)
      requires |entities| == |rows|
      modifies this
      ensures ok <==> WithMappings(old(db), component, entities, rows).Some?
      ensures db == if ok then WithMappings(old(db), component, entities, rows).value else old(db)
    {
      var before := db;
      for i := 0 to |entities|
        invariant WithMappings(before, component, entities[..i], rows[..i]) == Some(db)
      {
        assert entities[..i + 1][..i] == entities[..i] && rows[..i + 1][..i] == rows[..i];
        var mapping := Mapping(component, entities[i]);
        if component !in db.components || MappingTaken(db, rows[i], mapping) {
          ClashStops(before, component, entities, rows, i + 1);
          db := before;
          return false;
        }
        db := db.(mappings := db.mappings[rows[i] := mapping]);
      }
      assert entities[..|entities|] == entities && rows[..|rows|] == rows;
      ok := true;
    }

    /** A component and its first mappings, or nothing. */
    method CreateComponentRow(e: Edit) returns (ok: bool)
      requires e.CreateComponent? && |e.entities| == |e.rows|
      modifies this
      ensures ok <==> Apply(old(db), e).Some?
      ensures db == if ok then Apply(old(db), e).value else old(db)
    {
      hide WithMappings;
      if e.id in db.components || e.model !in db.kinds || !ParentFits(db, e.parent, e.model) { return false; }
      var before := db;
      var row := Component(e.id, e.model, None, e.kind, e.name, e.description, e.parent);
      db := db.(components := db.components[e.id := row]);
      ok := InsertMappings(e.id, e.entities, e.rows);
      if !ok { db := before; }
    }

    /** A relation between two components of the model, never a self-loop or a duplicate. */
    method CreateRelationRow(e: Edit) returns (ok: bool)
      requires e.CreateRelation?
      modifies this
      ensures ok <==> Apply(old(db), e).Some?
      ensures db == if ok then Apply(old(db), e).value else old(db)
    {
      if !InModel(db, e.source, e.model) || !InModel(db, e.target, e.model) || e.source == e.target { return false; }
      if exists r :: r in db.relations && db.relations[r].model == e.model && db.relations[r].kind == e.kind
           && db.relations[r].source == e.source && db.relations[r].target == e.target { return false; }
      if e.id in db.relations { return false; }
      db := db.(relations := db.relations[e.id := Relation(e.id, e.model, e.kind, e.source, e.target, e.caption)]);
      ok := true;
    }

    /** A guarded update: the parent must be in the model and not below the component. */
    method UpdateComponentRow(e: Edit) returns (ok: bool)
      requires Valid(db) && e.UpdateComponent?
      modifies this
      ensures ok <==> Apply(old(db), e).Some?
      ensures db == if ok then Apply(old(db), e).value else old(db)
    {
      if !InModel(db, e.id, e.model) { return false; }
      if e.parentEdit.SetParent? {
        if !InModel(db, e.parentEdit.parent, e.model) { return false; }
        var cycle := WouldCreateCycle(db.components, e.id, e.parentEdit.parent);
        if cycle { return false; }
      }
      if ChangesNothing(e) { return false; }
      db := db.(components := db.components[e.id := Updated(db.components[e.id], e)]);
      ok := true;
    }
  }

  lemma {:induction false} ClashStops(db: Arch, component: string, entities: seq<Entity>, rows: seq<string>, n: nat)
    requires n <= |entities| == |rows| && WithMappings(db, component, entities[..n], rows[..n]).None?
    ensures WithMappings(db, component, entities, rows).None?
    decreases |entities| - n
  {
    if n == |entities| {
      assert entities[..n] == entities && rows[..n] == rows;
    } else {
      assert entities[..n + 1][..n] == entities[..n] && rows[..n + 1][..n] == rows[..n];
      ClashStops(db, component, entities, rows, n + 1);
    }
  }

  lemma {:induction false} MembersAreBelow(cs: Table, id: string, rows: seq<Row>, members: seq<string>)
    requires Hierarchy.GoodRows(cs, id, rows)
    requires forall d :: IsListed(rows, d) <==> d in cs && IsUnder(cs, d, id)
    requires |members| == |rows| && forall i :: 0 <= i < |rows| ==> members[i] == rows[i].0
    ensures Elems(members) == Below(cs, id) && |members| == |Below(cs, id)|
  {
    var s := Elems(members);
    forall x ensures x in s <==> x in Below(cs, id) {
      if x in s { var i :| 0 <= i < |members| && members[i] == x; assert rows[i].0 == x; }
      if x in Below(cs, id) {
        assert IsListed(rows, x);
        var l :| 0 <= l < |rows| && rows[l].0 == x;
        assert members[l] == x;
      }
    }
    DistinctCount(members);
  }

  lemma {:induction false} SubtreeGoes(db: Arch, id: string, model: string)
    requires Valid(db) && InModel(db, id, model)
    ensures Valid(Without(db, Below(db.components, id)))
  {
    DeleteKeeps(db, DeleteComponent(id, model, true), Without(db, Below(db.components, id)));
  }

  lemma {:induction false} LeafGoes(db: Arch, id: string)
    requires IsLeafWithoutRelations(db, id)
    ensures Without(db, {id}) == db.(
      components := db.components - {id},
      mappings := map m | m in db.mappings && db.mappings[m].component != id :: db.mappings[m])
  {
    assert Without(db, {id}).relations == db.relations;
    assert Without(db, {id}).mappings == map m | m in db.mappings && db.mappings[m].component != id :: db.mappings[m];
  }

  lemma {:induction false} RowsLeft(db: Arch, d: Arch, members: seq<string>)
    requires var doomed := Elems(members);
      d == db.(
        relations := map r | r in db.relations && !Touches(db.relations[r], doomed) :: db.relations[r],
        mappings := map m | m in db.mappings && db.mappings[m].component !in doomed :: db.mappings[m])
    ensures Cleared(db, d, members, 0)
  {
    assert members[..0] == [];
  }

  lemma {:induction false} AllCleared(db: Arch, d: Arch, members: seq<string>)
    requires Cleared(db, d, members, |members|)
    requires var doomed := Elems(members);
      && d.relations == (map r | r in db.relations && !Touches(db.relations[r], doomed) :: db.relations[r])
      && d.mappings == (map m | m in db.mappings && db.mappings[m].component !in doomed :: db.mappings[m])
    ensures d == Without(db, Elems(members))
  {
    assert members[..|members|] == members;
  }
}
