/**
 The provider-local translation-unit cache: which units are analysed again, and
 why the facts returned are those of analysing every unit from scratch.
 A digest stands for what it digests, so equal digests mean equal inputs.
 */
module IncrementalCache {
  import opened Prelude
  import opened Ordering

  type Path = string
  type FileSystem = map<Path, string>

  datatype Row = Row(file: Path, command: string)
  datatype Config = Config(rows: seq<Row>, clang: string, provider: string, schema: string)

  /** Everything the identity digest of a translation unit covers. */
  datatype TuIdentity = TuIdentity(
    file: Path, command: string, source: string, clang: string, provider: string, schema: string)

  datatype Fact = Fact(id: string, semantic: string, location: string)
  datatype Analysis = Analysis(facts: seq<Fact>, dependencies: seq<Path>)

  /** The compiler frontend: facts and dependency paths of one unit, or a frontend error. */
  type Clang = (TuIdentity, FileSystem) -> Option<Analysis>

  type SemanticDigest = multiset<string>
  type ResultIdentity = map<Path, SemanticDigest>

  datatype Entry = Entry(
    identity: TuIdentity, semantic: SemanticDigest, digests: map<Path, string>,
    dependencies: seq<Path>, facts: seq<Fact>)

  datatype State = State(units: map<Path, Entry>, resultIdentity: ResultIdentity)

  datatype RunError = MissingSource(file: Path) | FrontendFailed(file: Path)

  datatype Cutoff = InputIdentityUnchanged | SemanticDigestUnchanged | NoCutoff

  datatype IncrementalRun = IncrementalRun(
    reparsed: set<Path>, dependencyInvalidated: set<Path>, identityInvalidated: set<Path>,
    semanticChanged: set<Path>, semanticReused: set<Path>, factsChanged: nat, factsReused: nat,
    cutoff: Cutoff, facts: seq<Fact>, manifest: map<Path, seq<Path>>, state: State)

  // ---------- one unit ----------

  const BY_ID: (Fact, Fact) -> bool := ByText((f: Fact) => f.id)

  function SemanticFactDigest(facts: seq<Fact>): SemanticDigest {
    if facts == [] then multiset{}
    else SemanticFactDigest(facts[..|facts| - 1]) + multiset{facts[|facts| - 1].semantic}
  }

  function RecordedDigests(dependencies: seq<Path>, fs: FileSystem): map<Path, string> {
    map p | p in dependencies && p in fs :: fs[p]
  }

  function FreshEntry(clang: Clang, id: TuIdentity, fs: FileSystem): Option<Entry> {
    match clang(id, fs)
    case None => None
    case Some(a) =>
      var facts := SortBy(BY_ID, a.facts);
      Some(Entry(id, SemanticFactDigest(facts), RecordedDigests(a.dependencies, fs), a.dependencies, facts))
  }

  predicate DependencyMoved(prior: Entry, fs: FileSystem) {
    exists p :: p in prior.digests && (p !in fs || fs[p] != prior.digests[p])
  }

  predicate MustReparse(previous: map<Path, Entry>, file: Path, id: TuIdentity, fs: FileSystem) {
    file !in previous || previous[file].identity != id || DependencyMoved(previous[file], fs)
  }

  function EntryFor(
      clang: Clang, previous: map<Path, Entry>, file: Path, id: TuIdentity, fs: FileSystem): Option<Entry> {
    if MustReparse(previous, file, id, fs) then FreshEntry(clang, id, fs) else Some(previous[file])
  }

  // ---------- one run ----------

  function IdentityOf(cfg: Config, row: Row, fs: FileSystem): TuIdentity
    requires row.file in fs
  {
    TuIdentity(row.file, row.command, fs[row.file], cfg.clang, cfg.provider, cfg.schema)
  }

  /** The units of a compilation database; a later row for the same file replaces an earlier one. */
  function Units(cfg: Config, rows: seq<Row>, fs: FileSystem): Result<map<Path, TuIdentity>, RunError> {
    if rows == [] then Ok(map[])
    else
      var row := rows[|rows| - 1];
      var before := Units(cfg, rows[..|rows| - 1], fs);
      if before.Err? then before
      else if row.file !in fs then Err(MissingSource(row.file))
      else Ok(before.value[row.file := IdentityOf(cfg, row, fs)])
  }

  /** Entries of `files` in order, reusing the previous ones that are still good. */
  function NextUnits(
    clang: Clang, previous: map<Path, Entry>, units: map<Path, TuIdentity>, fs: FileSystem, files: seq<Path>)
    : (r: Result<map<Path, Entry>, RunError>)
    requires forall f :: f in files ==> f in units
    ensures r.Ok? ==> r.value.Keys == Elems(files)
  {
    if files == [] then Ok(map[])
    else
      var file := files[|files| - 1];
      var before := NextUnits(clang, previous, units, fs, files[..|files| - 1]);
      if before.Err? then before
      else
        match EntryFor(clang, previous, file, units[file], fs)
        case None => Err(FrontendFailed(file))
        case Some(e) =>
          ElemsOfLast(files);
          Ok(before.value[file := e])
  }

  function Concatenated(units: map<Path, Entry>, files: seq<Path>): seq<Fact>
    requires forall f :: f in files ==> f in units
  {
    if files == [] then []
    else Concatenated(units, files[..|files| - 1]) + units[files[|files| - 1]].facts
  }

  function SemanticOf(units: map<Path, Entry>): ResultIdentity {
    map f | f in units :: units[f].semantic
  }

  predicate SemanticallyReused(previous: map<Path, Entry>, next: map<Path, Entry>, file: Path)
    requires file in next
  {
    file in previous && previous[file].semantic == next[file].semantic
  }

  function FactTotal(units: map<Path, Entry>, files: seq<Path>, keep: set<Path>): nat
    requires forall f :: f in files ==> f in units
  {
    if files == [] then 0
    else
      var file := files[|files| - 1];
      FactTotal(units, files[..|files| - 1], keep) + (if file in keep then |units[file].facts| else 0)
  }

  function PreviousUnits(cache: Option<State>): map<Path, Entry> {
    if cache.None? then map[] else cache.value.units
  }

  ghost function RunSpec(
      clang: Clang, cfg: Config, fs: FileSystem, cache: Option<State>): Result<IncrementalRun, RunError> {
    var previous := PreviousUnits(cache);
    var loaded := Units(cfg, cfg.rows, fs);
    if loaded.Err? then Err(loaded.error)
    else
      var units := loaded.value;
      var files := SortedKeys(units.Keys);
      SortedKeysMeaning(units.Keys);
      var built := NextUnits(clang, previous, units, fs, files);
      if built.Err? then Err(built.error)
      else
        var next := built.value;
        var reparsed := set f | f in units && MustReparse(previous, f, units[f], fs);
        var identity := set f | f in units && f in previous && previous[f].identity != units[f];
        var dependency := set f | f in units && f in previous && previous[f].identity == units[f]
            && DependencyMoved(previous[f], fs);
        var reused := set f | f in next && SemanticallyReused(previous, next, f);
        var changed := set f | f in next && !SemanticallyReused(previous, next, f);
        Ok(IncrementalRun(
             reparsed, dependency, identity, changed, reused,
             FactTotal(next, files, changed), FactTotal(next, files, reused),
             if reparsed == {} then InputIdentityUnchanged
             else if changed == {} then SemanticDigestUnchanged
             else NoCutoff,
             SortBy(BY_ID, Concatenated(next, files)),
             map f | f in next :: next[f].dependencies,
             State(next, SemanticOf(next))))
  }

  // ---------- the analyzer with its loops ----------

  class ProviderCache {
    var current: Option<State>

    constructor ()
      ensures current == None
    {
      current := None;
    }

    method Publish(run: IncrementalRun)
      modifies this
      ensures current == Some(run.state)
    {
      current := Some(run.state);
    }

    method Run(clang: Clang, cfg: Config, fs: FileSystem, publish: bool) returns (r: Result<IncrementalRun, RunError>)
      modifies this
      ensures r == RunSpec(clang, cfg, fs, old(current))
      ensures RunReadsRows(clang, cfg, fs, PreviousUnits(old(current)), r)
      ensures current == if publish && r.Ok? then Some(r.value.state) else old(current)
    {
      RunMeaning(clang, cfg, fs, current);
      hide RunReadsRows;
      var previous := PreviousUnits(current);
      var loaded := LoadUnits(cfg, fs);
      if loaded.Err? {
        return Err(loaded.error);
      }
      var units := loaded.value;
      var reparse, identity, dependency := Invalidate(previous, units, fs);
      var files := SortKeys(units.Keys);
      SortedKeysMeaning(units.Keys);
      var built := Rebuild(clang, previous, units, fs, files, reparse);
      if built.Err? {
        return Err(built.error);
      }
      var b := built.value;
      var cutoff := if reparse == {} then InputIdentityUnchanged
                    else if b.changed == {} then SemanticDigestUnchanged else NoCutoff;
      var run := IncrementalRun(
        reparse, dependency, identity, b.changed, b.reused, b.factsChanged, b.factsReused, cutoff,
        SortBy(BY_ID, b.facts), map f | f in b.units :: b.units[f].dependencies,
        State(b.units, SemanticOf(b.units)));
      if publish {
        Publish(run);
      }
      r := Ok(run);
    }
  }

  method LoadUnits(cfg: Config, fs: FileSystem) returns (r: Result<map<Path, TuIdentity>, RunError>)
    ensures r == Units(cfg, cfg.rows, fs) && Loads(cfg, cfg.rows, fs, r)
  {
    UnitsMeaning(cfg, cfg.rows, fs);
    hide Loads;
    var units: map<Path, TuIdentity> := map[];
    for i := 0 to |cfg.rows|
      invariant Units(cfg, cfg.rows[..i], fs) == Ok(units)
    {
      var row := cfg.rows[i];
      assert cfg.rows[..i + 1][..i] == cfg.rows[..i];
      if row.file !in fs {
        UnitsFail(cfg, fs, i + 1, |cfg.rows|);
        return Err(MissingSource(row.file));
      }
      units := units[row.file := IdentityOf(cfg, row, fs)];
    }
    assert cfg.rows[..|cfg.rows|] == cfg.rows;
    r := Ok(units);
  }

  lemma {:induction false} UnitsFail(cfg: Config, fs: FileSystem, i: nat, n: nat)
    requires i <= n <= |cfg.rows| && Units(cfg, cfg.rows[..i], fs).Err?
    ensures Units(cfg, cfg.rows[..n], fs) == Units(cfg, cfg.rows[..i], fs)
    ensures n == |cfg.rows| ==> cfg.rows[..n] == cfg.rows
    decreases n - i
  {
    if i < n {
      assert cfg.rows[..n][..n - 1] == cfg.rows[..n - 1];
      UnitsFail(cfg, fs, i, n - 1);
    }
  }

  method Invalidate(previous: map<Path, Entry>, units: map<Path, TuIdentity>, fs: FileSystem)
    returns (reparse: set<Path>, identity: set<Path>, dependency: set<Path>)
    ensures reparse == set f | f in units && MustReparse(previous, f, units[f], fs)
    ensures identity == set f | f in units && f in previous && previous[f].identity != units[f]
    ensures dependency == set f | f in units && f in previous && previous[f].identity == units[f]
              && DependencyMoved(previous[f], fs)
  {
    reparse, identity, dependency := {}, {}, {};
    var todo := units.Keys;
    while todo != {}
      invariant todo <= units.Keys
      invariant reparse == set f | f in units.Keys - todo && MustReparse(previous, f, units[f], fs)
      invariant identity == set f | f in units.Keys - todo && f in previous && previous[f].identity != units[f]
      invariant dependency ==
                set f | f in units.Keys - todo && f in previous && previous[f].identity == units[f]
                    && DependencyMoved(previous[f], fs)
      decreases todo
    {
      var f :| f in todo;
      todo := todo - {f};
      if f !in previous {
        reparse := reparse + {f};
      } else if previous[f].identity != units[f] {
        reparse := reparse + {f};
        identity := identity + {f};
      } else {
        var moved := SomeDependencyMoved(previous[f], fs);
        if moved {
          reparse := reparse + {f};
          dependency := dependency + {f};
        }
      }
    }
  }

  method SomeDependencyMoved(prior: Entry, fs: FileSystem) returns (moved: bool)
    ensures moved <==> DependencyMoved(prior, fs)
  {
    var todo := prior.digests.Keys;
    while todo != {}
      invariant todo <= prior.digests.Keys
      invariant forall p :: p in prior.digests && p !in todo ==> p in fs && fs[p] == prior.digests[p]
      decreases todo
    {
      var p :| p in todo;
      var now := if p in fs then Some(fs[p]) else None;
      if now != Some(prior.digests[p]) {
        return true;
      }
      todo := todo - {p};
    }
    moved := false;
  }

  datatype Built = Built(
    units: map<Path, Entry>, changed: set<Path>, reused: set<Path>, factsChanged: nat, factsReused: nat,
        facts: seq<Fact>)

  ghost predicate BuiltUpTo(b: Built, previous: map<Path, Entry>, files: seq<Path>) {
    && b.units.Keys == (set f | f in files)
    && b.changed == (set f | f in b.units && !SemanticallyReused(previous, b.units, f))
    && b.reused == (set f | f in b.units && SemanticallyReused(previous, b.units, f))
    && b.facts == Concatenated(b.units, files)
    && b.factsChanged == FactTotal(b.units, files, b.changed)
    && b.factsReused == FactTotal(b.units, files, b.reused)
  }

  method Rebuild(clang: Clang, previous: map<Path, Entry>, units: map<Path, TuIdentity>, fs: FileSystem,
                 files: seq<Path>, reparse: set<Path>)
    returns (r: Result<Built, RunError>)
    requires forall f :: f in files ==> f in units
    requires forall i, j :: 0 <= i < j < |files| ==> files[i] != files[j]
    requires reparse == set f | f in units && MustReparse(previous, f, units[f], fs)
    ensures match NextUnits(clang, previous, units, fs, files)
            case Err(e) => r == Err(e)
            case Ok(next) => r.Ok? && r.value.units == next && BuiltUpTo(r.value, previous, files)
  {
    hide DependencyMoved, FreshEntry, BuiltUpTo, NextUnits;
    var b := Built(map[], {}, {}, 0, 0, []);
    NothingBuilt(clang, previous, units, fs);
    assert files[..0] == [];
    for i := 0 to |files|
      invariant NextUnits(clang, previous, units, fs, files[..i]) == Ok(b.units)
      invariant BuiltUpTo(b, previous, files[..i])
    {
      var file := files[i];
      NextUnitsStep(clang, previous, units, fs, files, i);
      var entry: Entry;
      var reused: bool;
      if file !in reparse && file in previous {
        entry := previous[file];
        reused := true;
      } else {
        var anew := FreshEntry(clang, units[file], fs);
        if anew.None? {
          NextUnitsFail(clang, previous, units, fs, files, i + 1, |files|);
          return Err(FrontendFailed(file));
        }
        entry := anew.value;
        reused := file in previous && previous[file].semantic == entry.semantic;
      }
      ghost var before := b;
      b := Built(
        b.units[file := entry],
        if reused then b.changed else b.changed + {file},
        if reused then b.reused + {file} else b.reused,
        b.factsChanged + (if reused then 0 else |entry.facts|),
        b.factsReused + (if reused then |entry.facts| else 0),
        b.facts + entry.facts);
      BuiltNext(before, b, previous, files, i, entry);
    }
    assert files[..|files|] == files;
    r := Ok(b);
  }

  lemma {:induction false} NextUnitsStep(
      clang: Clang, previous: map<Path, Entry>, units: map<Path, TuIdentity>, fs: FileSystem, files: seq<Path>, i: nat)
    requires i < |files| && forall f :: f in files ==> f in units
    ensures var before := NextUnits(clang, previous, units, fs, files[..i]);
      before.Ok? ==>
        NextUnits(clang, previous, units, fs, files[..i + 1]) ==
        match EntryFor(clang, previous, files[i], units[files[i]], fs) {
          case None => Err(FrontendFailed(files[i]))
          case Some(e) => Ok(before.value[files[i] := e])
        }
  {
    assert files[..i + 1][..i] == files[..i];
    hide EntryFor;
  }

  lemma {:induction false} NothingBuilt(
      clang: Clang, previous: map<Path, Entry>, units: map<Path, TuIdentity>, fs: FileSystem)
    ensures BuiltUpTo(Built(map[], {}, {}, 0, 0, []), previous, [])
    ensures NextUnits(clang, previous, units, fs, []) == Ok(map[])
  {
  }

  lemma {:induction false} NextUnitsFail(
    clang: Clang, previous: map<Path, Entry>, units: map<Path, TuIdentity>, fs: FileSystem, files: seq<Path>, i: nat,
        n: nat)
    requires forall f :: f in files ==> f in units
    requires i <= n <= |files| && NextUnits(clang, previous, units, fs, files[..i]).Err?
    ensures NextUnits(clang, previous, units, fs, files[..n]) == NextUnits(clang, previous, units, fs, files[..i])
    ensures n == |files| ==> files[..n] == files
    decreases n - i
  {
    hide EntryFor, FreshEntry;
    if i < n {
      NextUnitsFail(clang, previous, units, fs, files, i, n - 1);
      FailureSpreads(clang, previous, units, fs, files, n - 1);
    }
  }

  lemma {:induction false} FailureSpreads(
    clang: Clang, previous: map<Path, Entry>, units: map<Path, TuIdentity>, fs: FileSystem, files: seq<Path>, n: nat)
    requires n < |files| && forall f :: f in files ==> f in units
    requires NextUnits(clang, previous, units, fs, files[..n]).Err?
    ensures NextUnits(clang, previous, units, fs, files[..n + 1]) == NextUnits(clang, previous, units, fs, files[..n])
  {
    hide EntryFor, FreshEntry;
    assert files[..n + 1][..n] == files[..n];
  }

  lemma {:induction false} TotalsAgree(
    a: map<Path, Entry>, b: map<Path, Entry>, files: seq<Path>, keep: set<Path>, keep': set<Path>)
    requires forall f :: f in files ==> f in a && f in b && a[f] == b[f] && (f in keep <==> f in keep')
    ensures Concatenated(a, files) == Concatenated(b, files)
    ensures FactTotal(a, files, keep) == FactTotal(b, files, keep')
    decreases |files|
  {
    if files != [] {
      TotalsAgree(a, b, files[..|files| - 1], keep, keep');
    }
  }

  lemma {:induction false} BuiltNext(
      before: Built, after: Built, previous: map<Path, Entry>, files: seq<Path>, i: nat, entry: Entry)
    requires i < |files| && (forall x, y :: 0 <= x < y < |files| ==> files[x] != files[y])
    requires BuiltUpTo(before, previous, files[..i])
    requires var file := files[i];
             var reused := file in previous && previous[file].semantic == entry.semantic;
             after == Built(
               before.units[file := entry],
               if reused then before.changed else before.changed + {file},
               if reused then before.reused + {file} else before.reused,
               before.factsChanged + (if reused then 0 else |entry.facts|),
               before.factsReused + (if reused then |entry.facts| else 0),
               before.facts + entry.facts)
    ensures BuiltUpTo(after, previous, files[..i + 1])
  {
    hide Concatenated, FactTotal;
    var file := files[i];
    assert files[..i + 1] == files[..i] + [file];
    assert file !in before.units;
    TotalsNext(after.units, files, i, after.changed);
    TotalsNext(after.units, files, i, after.reused);
    ReuseSetsNext(previous, before.units, file, entry);
    TotalsAgree(before.units, after.units, files[..i], before.changed, after.changed);
    TotalsAgree(before.units, after.units, files[..i], before.reused, after.reused);
    hide SemanticallyReused;
    assert file in after.changed <==> !(file in previous && previous[file].semantic == entry.semantic);
    assert file in after.reused <==> (file in previous && previous[file].semantic == entry.semantic);
  }

  lemma {:induction false} TotalsNext(units: map<Path, Entry>, files: seq<Path>, i: nat, keep: set<Path>)
    requires i < |files| && forall f :: f in files[..i + 1] ==> f in units
    ensures Concatenated(units, files[..i + 1]) == Concatenated(units, files[..i]) + units[files[i]].facts
    ensures FactTotal(units, files[..i + 1], keep) ==
            FactTotal(units, files[..i], keep) + (if files[i] in keep then |units[files[i]].facts| else 0)
  {
    assert files[..i + 1][..i] == files[..i];
  }

  lemma {:induction false} ReuseSetsNext(previous: map<Path, Entry>, units: map<Path, Entry>, file: Path, entry: Entry)
    requires file !in units
    ensures var next := units[file := entry];
            var reused := file in previous && previous[file].semantic == entry.semantic;
            && (set f | f in next && SemanticallyReused(previous, next, f)) ==
               (set f | f in units && SemanticallyReused(previous, units, f)) + (if reused then {file} else {})
            && (set f | f in next && !SemanticallyReused(previous, next, f)) ==
               (set f | f in units && !SemanticallyReused(previous, units, f)) + (if reused then {} else {file})
  {
  }

  // ---------- what the rows ask for ----------

  function RowFiles(rows: seq<Row>): set<Path> {
    set row | row in rows :: row.file
  }

  /** No later row names the same file. */
  ghost predicate Decides(rows: seq<Row>, k: int) {
    0 <= k < |rows| && forall m :: k < m < |rows| ==> rows[m].file != rows[k].file
  }

  /** The identity a row asks for. */
  ghost predicate AsksFor(cfg: Config, row: Row, fs: FileSystem, id: TuIdentity) {
    && id.file == row.file && id.command == row.command && row.file in fs && id.source == fs[row.file]
    && id.clang == cfg.clang && id.provider == cfg.provider && id.schema == cfg.schema
  }

  /** The first row whose file is absent. */
  ghost predicate FirstAbsent(rows: seq<Row>, k: int, fs: FileSystem) {
    0 <= k < |rows| && rows[k].file !in fs && forall m :: 0 <= m < k ==> rows[m].file in fs
  }

  lemma {:induction false} FilesOfLast(rows: seq<Row>)
    requires rows != []
    ensures RowFiles(rows) == RowFiles(rows[..|rows| - 1]) + {rows[|rows| - 1].file}
  {
    var n := |rows| - 1;
    assert rows == rows[..n] + [rows[n]];
    forall f | f in RowFiles(rows) ensures f in RowFiles(rows[..n]) + {rows[n].file} {
      var row :| row in rows && row.file == f;
      assert row in rows[..n] || row == rows[n];
    }
    forall f | f in RowFiles(rows[..n]) + {rows[n].file} ensures f in RowFiles(rows) {
      if f != rows[n].file {
        var row :| row in rows[..n] && row.file == f;
        assert row in rows;
      } else {
        assert rows[n] in rows;
      }
    }
  }

  lemma {:induction false} DecidesBefore(rows: seq<Row>, k: int)
    requires Decides(rows, k) && k + 1 < |rows|
    ensures Decides(rows[..|rows| - 1], k) && rows[|rows| - 1].file != rows[k].file
  {
  }

  /** One unit for each file of all the rows, with the identity its last row asks for. */
  ghost predicate Loads(cfg: Config, rows: seq<Row>, fs: FileSystem, r: Result<map<Path, TuIdentity>, RunError>) {
    match r
    case Err(MissingSource(f)) => exists k :: FirstAbsent(rows, k, fs) && rows[k].file == f
    case Err(_) => false
    case Ok(units) =>
      && RowFiles(rows) <= fs.Keys && units.Keys == RowFiles(rows)
      && forall k :: Decides(rows, k) ==> AsksFor(cfg, rows[k], fs, UnitAt(units, rows[k].file))
  }

  function UnitAt(units: map<Path, TuIdentity>, f: Path): TuIdentity {
    if f in units then units[f] else TuIdentity("", "", "", "", "", "")
  }

  lemma {:induction false} UnitsMeaning(cfg: Config, rows: seq<Row>, fs: FileSystem)
    ensures Loads(cfg, rows, fs, Units(cfg, rows, fs))
    decreases |rows|
  {
    if rows == [] {
      assert RowFiles(rows) == {};
    } else {
      UnitsMeaning(cfg, rows[..|rows| - 1], fs);
      FilesOfLast(rows);
      OneMoreRow(cfg, rows, fs, Units(cfg, rows[..|rows| - 1], fs));
    }
  }

  lemma {:induction false} OneMoreRow(
      cfg: Config, rows: seq<Row>, fs: FileSystem, before: Result<map<Path, TuIdentity>, RunError>)
    requires rows != [] && before == Units(cfg, rows[..|rows| - 1], fs) && Loads(cfg, rows[..|rows| - 1], fs, before)
    requires RowFiles(rows) == RowFiles(rows[..|rows| - 1]) + {rows[|rows| - 1].file}
    ensures Loads(cfg, rows, fs, Units(cfg, rows, fs))
  {
    var n := |rows| - 1;
    hide RowFiles;
    if before.Err? {
      var k :| FirstAbsent(rows[..n], k, fs) && MissingSource(rows[..n][k].file) == before.error;
      assert FirstAbsent(rows, k, fs);
    } else if rows[n].file !in fs {
      AllThere(rows[..n], fs);
      assert FirstAbsent(rows, n, fs);
    } else {
      var units := Units(cfg, rows, fs).value;
      forall k | Decides(rows, k) ensures AsksFor(cfg, rows[k], fs, UnitAt(units, rows[k].file)) {
        if k < n {
          DecidesBefore(rows, k);
        }
      }
    }
  }

  lemma {:induction false} AllThere(rows: seq<Row>, fs: FileSystem)
    requires RowFiles(rows) <= fs.Keys
    ensures forall k :: 0 <= k < |rows| ==> rows[k].file in fs
  {
    forall k | 0 <= k < |rows| ensures rows[k].file in fs {
      assert rows[k].file in RowFiles(rows);
    }
  }

  lemma {:induction false} DecidingRow(rows: seq<Row>, f: Path) returns (k: int)
    requires f in RowFiles(rows)
    ensures Decides(rows, k) && rows[k].file == f
    decreases |rows|
  {
    var n := |rows| - 1;
    if rows[n].file == f {
      k := n;
    } else {
      FilesOfLast(rows);
      k := DecidingRow(rows[..n], f);
    }
  }

  // ---------- every unit from scratch ----------

  /** What clang makes of a row. */
  ghost function RowAnalysis(clang: Clang, cfg: Config, row: Row, fs: FileSystem): Option<Analysis> {
    if exists id :: AsksFor(cfg, row, fs, id) then
      var id :| AsksFor(cfg, row, fs, id);
      clang(id, fs)
    else None
  }

  /** The facts of every row but those a later row replaces. */
  ghost function AllFacts(clang: Clang, cfg: Config, rows: seq<Row>, fs: FileSystem): multiset<Fact> {
    if rows == [] then multiset{}
    else
      var a := RowAnalysis(clang, cfg, rows[0], fs);
      (if Decides(rows, 0) && a.Some? then multiset(a.value.facts) else multiset{})
      + AllFacts(clang, cfg, rows[1..], fs)
  }

  /**
   What analysing every unit of the current rows gives, with no cache at all: all facts in
   the order of their ids, or the first absent file, or the least file clang gives up on.
   */
  ghost predicate FromScratch(clang: Clang, cfg: Config, fs: FileSystem, r: Result<seq<Fact>, RunError>) {
    && ((exists f :: r == Err(MissingSource(f))) <==> !(RowFiles(cfg.rows) <= fs.Keys))
    && match r
       case Err(MissingSource(f)) => exists k :: FirstAbsent(cfg.rows, k, fs) && cfg.rows[k].file == f
       case Err(FrontendFailed(f)) =>
         exists k :: Decides(cfg.rows, k) && cfg.rows[k].file == f && RowAnalysis(clang, cfg, cfg.rows[k], fs).None?
                     && forall m :: Decides(cfg.rows, m) && RowAnalysis(clang, cfg, cfg.rows[m], fs).None? ==>
                          Leq(f, cfg.rows[m].file)
       case Ok(facts) =>
         && (forall k :: Decides(cfg.rows, k) ==> RowAnalysis(clang, cfg, cfg.rows[k], fs).Some?)
         && Sorted(BY_ID, facts) && multiset(facts) == AllFacts(clang, cfg, cfg.rows, fs)
  }

  function ScratchUnits(clang: Clang, units: map<Path, TuIdentity>, fs: FileSystem, files: seq<Path>)
    : (r: Result<map<Path, Entry>, RunError>)
    requires forall f :: f in files ==> f in units
    ensures r.Ok? ==> r.value.Keys == Elems(files)
  {
    if files == [] then Ok(map[])
    else
      var file := files[|files| - 1];
      var before := ScratchUnits(clang, units, fs, files[..|files| - 1]);
      if before.Err? then before
      else
        match FreshEntry(clang, units[file], fs)
        case None => Err(FrontendFailed(file))
        case Some(e) =>
          ElemsOfLast(files);
          Ok(before.value[file := e])
  }

  /** The facts of analysing every unit of the current files, in the order the analyzer has them. */
  ghost function ScratchFacts(clang: Clang, cfg: Config, fs: FileSystem): Result<seq<Fact>, RunError> {
    match Units(cfg, cfg.rows, fs)
    case Err(e) => Err(e)
    case Ok(units) =>
      SortedKeysMeaning(units.Keys);
      var files := SortedKeys(units.Keys);
      match ScratchUnits(clang, units, fs, files)
      case Err(e) => Err(e)
      case Ok(next) => Ok(SortBy(BY_ID, Concatenated(next, files)))
  }

  lemma {:induction false} RowIsItsUnit(clang: Clang, cfg: Config, row: Row, fs: FileSystem, id: TuIdentity)
    requires AsksFor(cfg, row, fs, id)
    ensures RowAnalysis(clang, cfg, row, fs) == clang(id, fs)
  {
    forall x | AsksFor(cfg, row, fs, x) ensures x == id {
    }
  }

  ghost function Occurrences(facts: seq<Fact>, semantic: string): nat {
    |set i | 0 <= i < |facts| && facts[i].semantic == semantic|
  }

  /** Two lists of facts have one semantic digest exactly when every meaning occurs equally often. */
  lemma {:induction false} DigestCounts(facts: seq<Fact>, semantic: string)
    ensures SemanticFactDigest(facts)[semantic] == Occurrences(facts, semantic)
    decreases |facts|
  {
    if facts != [] {
      DigestCounts(facts[..|facts| - 1], semantic);
      OneMoreOccurrence(facts, semantic);
    }
  }

  lemma {:induction false} OneMoreOccurrence(facts: seq<Fact>, semantic: string)
    requires facts != []
    ensures Occurrences(facts, semantic) ==
            Occurrences(facts[..|facts| - 1], semantic) + (if facts[|facts| - 1].semantic == semantic then 1 else 0)
  {
    var n := |facts| - 1;
    var before := set i | 0 <= i < n && facts[..n][i].semantic == semantic;
    var all := set i | 0 <= i < |facts| && facts[i].semantic == semantic;
    assert all == before + (if facts[n].semantic == semantic then {n} else {});
    assert n !in before;
  }

  /** What an entry written by this analysis holds. */
  ghost predicate Reports(e: Entry, id: TuIdentity, a: Analysis, fs: FileSystem) {
    && e.identity == id && e.dependencies == a.dependencies
    && multiset(e.facts) == multiset(a.facts) && Sorted(BY_ID, e.facts)
    && (forall p :: p in e.digests <==> p in a.dependencies && p in fs)
    && (forall p :: p in e.digests ==> e.digests[p] == fs[p])
    && (forall t :: e.semantic[t] == Occurrences(e.facts, t))
  }

  lemma {:induction false} FreshEntryMeaning(clang: Clang, id: TuIdentity, fs: FileSystem)
    ensures FreshEntry(clang, id, fs).Some? <==> clang(id, fs).Some?
    ensures FreshEntry(clang, id, fs).Some? ==> Reports(FreshEntry(clang, id, fs).value, id, clang(id, fs).value, fs)
  {
    if clang(id, fs).Some? {
      var e, a := FreshEntry(clang, id, fs).value, clang(id, fs).value;
      ByIdIsPreorder();
      SortBySorts(BY_ID, a.facts);
      hide Occurrences, SemanticFactDigest;
      forall t ensures e.semantic[t] == Occurrences(e.facts, t) {
        DigestCounts(e.facts, t);
      }
    }
  }

  /** Clang gives up on the i-th file and on none before. */
  ghost predicate GivesUpAt(
      clang: Clang, units: map<Path, TuIdentity>, fs: FileSystem, files: seq<Path>, i: int)
    requires forall f :: f in files ==> f in units
  {
    && 0 <= i < |files| && FreshEntry(clang, units[files[i]], fs).None?
    && forall j :: 0 <= j < i ==> FreshEntry(clang, units[files[j]], fs).Some?
  }

  /** The first failure in the order of the files, or every entry fresh. */
  lemma {:induction false} ScratchUnitsMeaning(
      clang: Clang, units: map<Path, TuIdentity>, fs: FileSystem, files: seq<Path>)
    requires forall f :: f in files ==> f in units
    ensures match ScratchUnits(clang, units, fs, files)
            case Ok(next) => forall f :: f in files ==> f in next && FreshEntry(clang, units[f], fs) == Some(next[f])
            case Err(e) => exists i :: GivesUpAt(clang, units, fs, files, i) && e == FrontendFailed(files[i])
    decreases |files|
  {
    hide FreshEntry;
    if files != [] {
      var n := |files| - 1;
      var before := ScratchUnits(clang, units, fs, files[..n]);
      assert files == files[..n] + [files[n]];
      ScratchUnitsMeaning(clang, units, fs, files[..n]);
      if before.Err? {
        var i :| GivesUpAt(clang, units, fs, files[..n], i) && before.error == FrontendFailed(files[..n][i]);
        GivesUpLater(clang, units, fs, files, i);
      } else if FreshEntry(clang, units[files[n]], fs).None? {
        forall j | 0 <= j < n ensures FreshEntry(clang, units[files[j]], fs).Some? {
          assert files[..n][j] in files[..n];
        }
        GivesUpLast(clang, units, fs, files);
      }
    }
  }

  lemma {:induction false} GivesUpLater(
      clang: Clang, units: map<Path, TuIdentity>, fs: FileSystem, files: seq<Path>, i: int)
    requires files != [] && forall f :: f in files ==> f in units
    requires GivesUpAt(clang, units, fs, files[..|files| - 1], i)
    ensures GivesUpAt(clang, units, fs, files, i) && files[..|files| - 1][i] == files[i]
  {
    hide FreshEntry;
    forall j | 0 <= j < i ensures FreshEntry(clang, units[files[j]], fs).Some? {
      assert files[..|files| - 1][j] == files[j];
    }
  }

  lemma {:induction false} GivesUpLast(clang: Clang, units: map<Path, TuIdentity>, fs: FileSystem, files: seq<Path>)
    requires files != [] && forall f :: f in files ==> f in units
    requires forall j :: 0 <= j < |files| - 1 ==> FreshEntry(clang, units[files[j]], fs).Some?
    requires FreshEntry(clang, units[files[|files| - 1]], fs).None?
    ensures GivesUpAt(clang, units, fs, files, |files| - 1)
  {
    hide FreshEntry;
  }

  lemma {:induction false} ConcatenatedLast(units: map<Path, Entry>, files: seq<Path>)
    requires files != [] && forall f :: f in files ==> f in units
    ensures multiset(Concatenated(units, files)) ==
            multiset(Concatenated(units, files[..|files| - 1])) + multiset(units[files[|files| - 1]].facts)
  {
  }

  function Skip(files: seq<Path>, i: nat): (rest: seq<Path>)
    requires i < |files|
    ensures |rest| == |files| - 1 && forall f :: f in rest ==> f in files
  {
    files[..i] + files[i + 1..]
  }

  lemma {:induction false} SkipEarlier(files: seq<Path>, i: nat)
    requires i < |files| - 1
    ensures Skip(files, i)[..|files| - 2] == Skip(files[..|files| - 1], i)
    ensures Skip(files, i)[|files| - 2] == files[|files| - 1]
  {
  }

  lemma {:induction false} SkipLast(files: seq<Path>)
    requires files != []
    ensures Skip(files, |files| - 1) == files[..|files| - 1]
  {
  }

  /** The facts of one file taken out of the concatenation. */
  lemma {:induction false} WithoutOne(units: map<Path, Entry>, files: seq<Path>, i: nat)
    requires i < |files| && forall f :: f in files ==> f in units
    ensures multiset(Concatenated(units, files)) ==
            multiset(units[files[i]].facts) + multiset(Concatenated(units, Skip(files, i)))
    decreases |files|
  {
    var n := |files| - 1;
    ConcatenatedLast(units, files);
    hide Concatenated, Skip;
    if i < n {
      WithoutOne(units, files[..n], i);
      SkipEarlier(files, i);
      ConcatenatedLast(units, Skip(files, i));
    } else {
      SkipLast(files);
    }
  }

  ghost predicate Enumerates(files: seq<Path>, keys: set<Path>) {
    && (forall f :: f in files <==> f in keys)
    && (forall i, j :: 0 <= i < j < |files| ==> files[i] != files[j])
  }

  lemma {:induction false} EnumeratesLess(files: seq<Path>, keys: set<Path>, i: nat)
    requires Enumerates(files, keys) && i < |files|
    ensures Enumerates(Skip(files, i), keys - {files[i]})
  {
    var rest := Skip(files, i);
    forall f | f in keys - {files[i]} ensures f in rest {
      var k :| 0 <= k < |files| && files[k] == f;
      assert rest[if k < i then k else k - 1] == f;
    }
  }

  lemma {:induction false} FilesOfFirst(rows: seq<Row>)
    requires rows != []
    ensures RowFiles(rows) == RowFiles(rows[1..]) + {rows[0].file}
    ensures Decides(rows, 0) <==> rows[0].file !in RowFiles(rows[1..])
    ensures forall k :: Decides(rows[1..], k) ==> Decides(rows, k + 1)
  {
    var rest := rows[1..];
    assert rows == [rows[0]] + rest;
    assert forall row :: row in rows <==> row == rows[0] || row in rest;
    if !Decides(rows, 0) {
      var m :| 0 < m < |rows| && rows[m].file == rows[0].file;
      assert rest[m - 1] in rest;
    }
    if rows[0].file in RowFiles(rest) {
      var row :| row in rest && row.file == rows[0].file;
      var m :| 0 <= m < |rest| && rest[m] == row;
      assert rows[m + 1].file == rows[0].file;
    }
  }

  /** The facts in the entries of all rows but those a later row replaces. */
  ghost function EntryFacts(rows: seq<Row>, units: map<Path, Entry>): multiset<Fact> {
    if rows == [] then multiset{}
    else
      (if Decides(rows, 0) && rows[0].file in units then multiset(units[rows[0].file].facts) else multiset{})
      + EntryFacts(rows[1..], units)
  }

  /** Concatenating one entry for each file gives the facts of all the deciding rows' entries. */
  lemma {:induction false} EntriesAreConcatenated(rows: seq<Row>, units: map<Path, Entry>, files: seq<Path>)
    requires Enumerates(files, RowFiles(rows)) && forall f :: f in files ==> f in units
    ensures multiset(Concatenated(units, files)) == EntryFacts(rows, units)
    decreases |rows|
  {
    hide RowFiles;
    if rows == [] {
      NoFiles();
      assert Elems(files) == {};
      DistinctCount(files);
    } else {
      FilesOfFirst(rows);
      hide Decides, Concatenated;
      var rest := files;
      if Decides(rows, 0) {
        var i :| 0 <= i < |files| && files[i] == rows[0].file;
        rest := Skip(files, i);
        WithoutOne(units, files, i);
        EnumeratesLess(files, RowFiles(rows), i);
      }
      EntriesAreConcatenated(rows[1..], units, rest);
    }
  }

  /** Every fact of the entries of these files, by its place. */
  ghost function FactPlaces(units: map<Path, Entry>, keep: set<Path>): set<(Path, int)> {
    set f, i | f in units && f in keep && 0 <= i < |units[f].facts| :: (f, i)
  }

  lemma {:induction false} PlacesOfOne(f: Path, n: nat)
    ensures |set i | 0 <= i < n :: (f, i)| == n
  {
    if n > 0 {
      PlacesOfOne(f, n - 1);
      var less, all := set i | 0 <= i < n - 1 :: (f, i), set i | 0 <= i < n :: (f, i);
      assert all == less + {(f, n - 1)} && (f, n - 1) !in less;
    }
  }

  lemma {:induction false} TotalsCountPlaces(units: map<Path, Entry>, files: seq<Path>, keep: set<Path>)
    requires forall f :: f in files ==> f in units
    requires forall i, j :: 0 <= i < j < |files| ==> files[i] != files[j]
    ensures FactTotal(units, files, keep) == |FactPlaces(units, keep * Elems(files))|
  {
    if files == [] {
      assert FactPlaces(units, keep * Elems(files)) == {};
    } else {
      var n := |files| - 1;
      var f, before := files[n], FactPlaces(units, keep * Elems(files[..n]));
      TotalsCountPlaces(units, files[..n], keep);
      ElemsOfLast(files);
      assert f !in files[..n];
      var more := if f in keep then set i | 0 <= i < |units[f].facts| :: (f, i) else {};
      PlacesOfOne(f, |units[f].facts|);
      assert FactPlaces(units, keep * Elems(files)) == before + more;
      assert before * more == {};
    }
  }

  /** Concatenating one entry for each file gives the facts of all the deciding rows. */
  lemma {:induction false} EntriesHoldAllFacts(
      clang: Clang, cfg: Config, rows: seq<Row>, fs: FileSystem, units: map<Path, Entry>, files: seq<Path>)
    requires Enumerates(files, RowFiles(rows)) && forall f :: f in files ==> f in units
    requires forall k :: Decides(rows, k) ==>
      && rows[k].file in units && RowAnalysis(clang, cfg, rows[k], fs).Some?
      && multiset(units[rows[k].file].facts) == multiset(RowAnalysis(clang, cfg, rows[k], fs).value.facts)
    ensures multiset(Concatenated(units, files)) == AllFacts(clang, cfg, rows, fs)
    decreases |rows|
  {
    hide RowAnalysis, RowFiles;
    if rows == [] {
      NoFiles();
      assert Elems(files) == {};
      DistinctCount(files);
    } else {
      FilesOfFirst(rows);
      DecidesLater(rows);
      hide Decides, Concatenated;
      var rest := files;
      if Decides(rows, 0) {
        var i :| 0 <= i < |files| && files[i] == rows[0].file;
        rest := Skip(files, i);
        WithoutOne(units, files, i);
        EnumeratesLess(files, RowFiles(rows), i);
      }
      EntriesHoldAllFacts(clang, cfg, rows[1..], fs, units, rest);
    }
  }

  lemma {:induction false} DecidesLater(rows: seq<Row>)
    requires rows != []
    ensures forall k :: Decides(rows[1..], k) ==>
      0 <= k < |rows[1..]| && rows[1..][k] == rows[k + 1] && Decides(rows, k + 1)
  {
    FilesOfFirst(rows);
  }

  lemma {:induction false} NoFiles()
    ensures RowFiles([]) == {}
  {
  }

  lemma {:induction false} ByIdIsPreorder()
    ensures Preorder(BY_ID)
  {
    ByTextIsPreorder((f: Fact) => f.id);
  }

  /** ScratchFacts is what the rows ask for. */
  lemma {:induction false} ScratchReadsTheRows(clang: Clang, cfg: Config, fs: FileSystem)
    ensures FromScratch(clang, cfg, fs, ScratchFacts(clang, cfg, fs))
  {
    var loaded := Units(cfg, cfg.rows, fs);
    UnitsMeaning(cfg, cfg.rows, fs);
    if loaded.Err? {
      var k :| FirstAbsent(cfg.rows, k, fs) && MissingSource(cfg.rows[k].file) == loaded.error;
      assert cfg.rows[k] in cfg.rows;
    } else {
      ScratchOfUnits(clang, cfg, fs, loaded.value);
    }
  }

  lemma {:induction false} ScratchOfUnits(clang: Clang, cfg: Config, fs: FileSystem, units: map<Path, TuIdentity>)
    requires Units(cfg, cfg.rows, fs) == Ok(units) && Loads(cfg, cfg.rows, fs, Ok(units))
    ensures FromScratch(clang, cfg, fs, ScratchFacts(clang, cfg, fs))
  {
    hide *;
    var files := SortedKeys(units.Keys);
    ScratchByUnits(clang, cfg, fs, units);
    SortedKeysEnumerate(units.Keys);
    ScratchUnitsMeaning(clang, units, fs, files);
    DecidingRowsAreUnits(clang, cfg, fs, units);
    var made := ScratchUnits(clang, units, fs, files);
    if made.Err? {
      FirstFailure(clang, cfg, fs, units, files, made.error);
    } else {
      AllFresh(clang, cfg, fs, units, files, made.value);
    }
  }

  lemma {:induction false} SortedKeysEnumerate(keys: set<Path>)
    ensures Enumerates(SortedKeys(keys), keys)
  {
    SortedKeysMeaning(keys);
  }

  lemma {:induction false} DecidingRowsAreUnits(
      clang: Clang, cfg: Config, fs: FileSystem, units: map<Path, TuIdentity>)
    requires Loads(cfg, cfg.rows, fs, Ok(units))
    ensures units.Keys == RowFiles(cfg.rows) <= fs.Keys
    ensures forall k :: Decides(cfg.rows, k) ==>
      cfg.rows[k].file in units && RowAnalysis(clang, cfg, cfg.rows[k], fs) == clang(units[cfg.rows[k].file], fs)
  {
    hide RowAnalysis, AsksFor;
    forall k | Decides(cfg.rows, k)
      ensures cfg.rows[k].file in units
      ensures RowAnalysis(clang, cfg, cfg.rows[k], fs) == clang(units[cfg.rows[k].file], fs)
    {
      assert cfg.rows[k].file in RowFiles(cfg.rows);
      RowIsItsUnit(clang, cfg, cfg.rows[k], fs, units[cfg.rows[k].file]);
    }
  }

  lemma {:induction false} ScratchByUnits(clang: Clang, cfg: Config, fs: FileSystem, units: map<Path, TuIdentity>)
    requires Units(cfg, cfg.rows, fs) == Ok(units)
    ensures forall f :: f in SortedKeys(units.Keys) ==> f in units
    ensures ScratchFacts(clang, cfg, fs) ==
            match ScratchUnits(clang, units, fs, SortedKeys(units.Keys)) {
              case Err(e) => Err(e)
              case Ok(next) => Ok(SortBy(BY_ID, Concatenated(next, SortedKeys(units.Keys))))
            }
  {
    SortedKeysMeaning(units.Keys);
    hide ScratchUnits, Concatenated, Units;
  }

  lemma {:induction false} AllFresh(
      clang: Clang, cfg: Config, fs: FileSystem, units: map<Path, TuIdentity>, files: seq<Path>,
      next: map<Path, Entry>)
    requires units.Keys == RowFiles(cfg.rows) <= fs.Keys && Enumerates(files, units.Keys)
    requires forall k :: Decides(cfg.rows, k) ==>
      cfg.rows[k].file in units && RowAnalysis(clang, cfg, cfg.rows[k], fs) == clang(units[cfg.rows[k].file], fs)
    requires forall f :: f in files ==> f in next && FreshEntry(clang, units[f], fs) == Some(next[f])
    ensures FromScratch(clang, cfg, fs, Ok(SortBy(BY_ID, Concatenated(next, files))))
  {
    hide RowAnalysis, FreshEntry, RowFiles, Sorted, SortBy, Concatenated, AllFacts;
    var rows := cfg.rows;
    ByIdIsPreorder();
    SortBySorts(BY_ID, Concatenated(next, files));
    forall k | Decides(rows, k)
      ensures rows[k].file in next && RowAnalysis(clang, cfg, rows[k], fs).Some?
      ensures multiset(next[rows[k].file].facts) == multiset(RowAnalysis(clang, cfg, rows[k], fs).value.facts)
    {
      assert rows[k].file in files;
      FreshEntryMeaning(clang, units[rows[k].file], fs);
    }
    EntriesHoldAllFacts(clang, cfg, rows, fs, next, files);
  }

  lemma {:induction false} FirstFailure(
      clang: Clang, cfg: Config, fs: FileSystem, units: map<Path, TuIdentity>, files: seq<Path>, e: RunError)
    requires units.Keys == RowFiles(cfg.rows) <= fs.Keys && files == SortedKeys(units.Keys)
    requires forall f :: f in files ==> f in units
    requires forall k :: Decides(cfg.rows, k) ==>
      cfg.rows[k].file in units && RowAnalysis(clang, cfg, cfg.rows[k], fs) == clang(units[cfg.rows[k].file], fs)
    requires exists i :: GivesUpAt(clang, units, fs, files, i) && e == FrontendFailed(files[i])
    ensures FromScratch(clang, cfg, fs, Err(e))
  {
    var rows := cfg.rows;
    SortedKeysEnumerate(units.Keys);
    var i :| GivesUpAt(clang, units, fs, files, i) && e == FrontendFailed(files[i]);
    assert files[i] in files;
    var k := DecidingRow(rows, files[i]);
    FreshEntryMeaning(clang, units[files[i]], fs);
    hide RowAnalysis, FreshEntry, RowFiles, GivesUpAt, AllFacts, Sorted, Reports;
    forall m | Decides(rows, m) && RowAnalysis(clang, cfg, rows[m], fs).None? ensures Leq(files[i], rows[m].file) {
      FreshEntryMeaning(clang, units[rows[m].file], fs);
      LeastGivesUp(clang, units, fs, files, i, rows[m].file);
    }
  }

  lemma {:induction false} LeastGivesUp(
      clang: Clang, units: map<Path, TuIdentity>, fs: FileSystem, files: seq<Path>, i: int, f: Path)
    requires files == SortedKeys(units.Keys) && f in units && forall g :: g in files ==> g in units
    requires GivesUpAt(clang, units, fs, files, i) && FreshEntry(clang, units[f], fs).None?
    ensures Leq(files[i], f)
  {
    hide FreshEntry;
    SortedKeysMeaning(units.Keys);
    var j :| 0 <= j < |files| && files[j] == f;
    LeqTotal(f, f);
  }

  ghost function RunFacts(
      clang: Clang, cfg: Config, fs: FileSystem, cache: Option<State>): Result<seq<Fact>, RunError> {
    match RunSpec(clang, cfg, fs, cache)
    case Err(e) => Err(e)
    case Ok(run) => Ok(run.facts)
  }

  // ---------- what a run reports, read off the rows ----------

  /** What an earlier run recorded for the file no longer holds for this row. */
  ghost predicate OutOfDate(cfg: Config, row: Row, fs: FileSystem, previous: map<Path, Entry>) {
    || row.file !in previous
    || !AsksFor(cfg, row, fs, previous[row.file].identity)
    || exists p :: p in previous[row.file].digests && (p !in fs || fs[p] != previous[row.file].digests[p])
  }

  /** One deciding row in a run that succeeded. */
  ghost predicate RowDone(
      clang: Clang, cfg: Config, row: Row, fs: FileSystem, previous: map<Path, Entry>, run: IncrementalRun) {
    && row.file in run.state.units && row.file in run.manifest
    && var e := run.state.units[row.file];
    && AsksFor(cfg, row, fs, e.identity) && run.manifest[row.file] == e.dependencies
    && (row.file in run.reparsed <==> OutOfDate(cfg, row, fs, previous))
    && (row.file in run.reparsed ==>
          clang(e.identity, fs).Some? && Reports(e, e.identity, clang(e.identity, fs).value, fs))
    && (row.file !in run.reparsed ==> e == previous[row.file])
    && (row.file in run.semanticReused <==> row.file in previous && previous[row.file].semantic == e.semantic)
    && (row.file in run.semanticChanged <==> row.file !in run.semanticReused)
  }

  ghost predicate RunReadsRows(
      clang: Clang, cfg: Config, fs: FileSystem, previous: map<Path, Entry>, r: Result<IncrementalRun, RunError>) {
    match r
    case Err(MissingSource(f)) => exists k :: FirstAbsent(cfg.rows, k, fs) && cfg.rows[k].file == f
    case Err(FrontendFailed(f)) =>
      && RowFiles(cfg.rows) <= fs.Keys
      && exists k :: Decides(cfg.rows, k) && cfg.rows[k].file == f && RowAnalysis(clang, cfg, cfg.rows[k], fs).None?
    case Ok(run) =>
      && RowFiles(cfg.rows) <= fs.Keys
      && run.manifest.Keys == run.state.units.Keys == RowFiles(cfg.rows)
      && run.reparsed + run.semanticReused + run.semanticChanged <= RowFiles(cfg.rows)
      && (forall k :: Decides(cfg.rows, k) ==> RowDone(clang, cfg, cfg.rows[k], fs, previous, run))
      && FactsReported(cfg.rows, run)
  }

  /** All facts of the entries in the order of their ids, and how many of them belong to changed and to reused files. */
  ghost predicate FactsReported(rows: seq<Row>, run: IncrementalRun) {
    && Sorted(BY_ID, run.facts) && multiset(run.facts) == EntryFacts(rows, run.state.units)
    && run.factsChanged == |FactPlaces(run.state.units, run.semanticChanged)|
    && run.factsReused == |FactPlaces(run.state.units, run.semanticReused)|
  }

  lemma {:induction false} RunMeaning(clang: Clang, cfg: Config, fs: FileSystem, cache: Option<State>)
    ensures RunReadsRows(clang, cfg, fs, PreviousUnits(cache), RunSpec(clang, cfg, fs, cache))
  {
    hide *;
    UnitsMeaning(cfg, cfg.rows, fs);
    RunByUnits(clang, cfg, fs, cache);
    var loaded := Units(cfg, cfg.rows, fs);
    if loaded.Err? {
      AbsentFile(clang, cfg, fs, PreviousUnits(cache), loaded.error);
    } else {
      DecidingRowsAreUnits(clang, cfg, fs, loaded.value);
      if RunSpec(clang, cfg, fs, cache).Err? {
        FailedRow(clang, cfg, fs, PreviousUnits(cache), loaded.value, RunSpec(clang, cfg, fs, cache).error);
      } else {
        RunAddsUp(clang, cfg, fs, cache);
        RowsAreDone(clang, cfg, fs, PreviousUnits(cache), loaded.value, RunSpec(clang, cfg, fs, cache).value);
      }
    }
  }

  /** The sets a run reports, by the rules of invalidation and reuse. */
  ghost predicate ReportsUnits(
      clang: Clang, fs: FileSystem, previous: map<Path, Entry>, units: map<Path, TuIdentity>, run: IncrementalRun) {
    && run.state.units.Keys == units.Keys
    && (forall f :: f in units ==>
          EntryFor(clang, previous, f, units[f], fs) == Some(run.state.units[f]))
    && run.reparsed == (set f | f in units && MustReparse(previous, f, units[f], fs))
    && run.semanticReused == (set f | f in run.state.units && SemanticallyReused(previous, run.state.units, f))
    && run.semanticChanged == (set f | f in run.state.units && !SemanticallyReused(previous, run.state.units, f))
    && run.manifest == map f | f in run.state.units :: run.state.units[f].dependencies
  }

  ghost predicate AddsUpFacts(units: map<Path, TuIdentity>, run: IncrementalRun) {
    && (forall f :: f in SortedKeys(units.Keys) ==> f in run.state.units)
    && run.facts == SortBy(BY_ID, Concatenated(run.state.units, SortedKeys(units.Keys)))
    && run.factsChanged == FactTotal(run.state.units, SortedKeys(units.Keys), run.semanticChanged)
    && run.factsReused == FactTotal(run.state.units, SortedKeys(units.Keys), run.semanticReused)
  }

  lemma {:induction false} RunByUnits(clang: Clang, cfg: Config, fs: FileSystem, cache: Option<State>)
    ensures var r, loaded := RunSpec(clang, cfg, fs, cache), Units(cfg, cfg.rows, fs);
      if loaded.Err? then r == Err(loaded.error)
      else if r.Err? then
        exists f :: f in loaded.value && FreshEntry(clang, loaded.value[f], fs).None? && r.error == FrontendFailed(f)
      else ReportsUnits(clang, fs, PreviousUnits(cache), loaded.value, r.value)
  {
    var loaded := Units(cfg, cfg.rows, fs);
    if loaded.Ok? {
      var units := loaded.value;
      var files := SortedKeys(units.Keys);
      SortedKeysMeaning(units.Keys);
      if RunSpec(clang, cfg, fs, cache).Err? {
        FailedFile(clang, PreviousUnits(cache), units, fs, files);
      } else {
        UntouchedEntries(clang, PreviousUnits(cache), units, fs, files);
        hide Units, NextUnits, Concatenated, FactTotal, EntryFor, MustReparse, SemanticallyReused;
        assert RunSpec(clang, cfg, fs, cache).value.state.units.Keys == units.Keys;
      }
    }
  }

  lemma {:induction false} RunAddsUp(clang: Clang, cfg: Config, fs: FileSystem, cache: Option<State>)
    requires RunSpec(clang, cfg, fs, cache).Ok?
    ensures Units(cfg, cfg.rows, fs).Ok?
    ensures AddsUpFacts(Units(cfg, cfg.rows, fs).value, RunSpec(clang, cfg, fs, cache).value)
  {
    var units := Units(cfg, cfg.rows, fs).value;
    SortedKeysMeaning(units.Keys);
    hide Units, Concatenated, FactTotal, MustReparse, SemanticallyReused, SortBy;
  }

  lemma {:induction false} AbsentFile(
      clang: Clang, cfg: Config, fs: FileSystem, previous: map<Path, Entry>, e: RunError)
    requires Loads(cfg, cfg.rows, fs, Err(e))
    ensures RunReadsRows(clang, cfg, fs, previous, Err(e))
  {
  }

  lemma {:induction false} FailedRow(
      clang: Clang, cfg: Config, fs: FileSystem, previous: map<Path, Entry>, units: map<Path, TuIdentity>, e: RunError)
    requires units.Keys == RowFiles(cfg.rows) <= fs.Keys
    requires forall k :: Decides(cfg.rows, k) ==>
      cfg.rows[k].file in units && RowAnalysis(clang, cfg, cfg.rows[k], fs) == clang(units[cfg.rows[k].file], fs)
    requires exists f :: f in units && FreshEntry(clang, units[f], fs).None? && e == FrontendFailed(f)
    ensures RunReadsRows(clang, cfg, fs, previous, Err(e))
  {
    var f :| f in units && FreshEntry(clang, units[f], fs).None? && e == FrontendFailed(f);
    FreshEntryMeaning(clang, units[f], fs);
    var k := DecidingRow(cfg.rows, f);
  }

  lemma {:induction false} RowsAreDone(
      clang: Clang, cfg: Config, fs: FileSystem, previous: map<Path, Entry>, units: map<Path, TuIdentity>,
      run: IncrementalRun)
    requires Loads(cfg, cfg.rows, fs, Ok(units)) && ReportsUnits(clang, fs, previous, units, run)
    requires AddsUpFacts(units, run)
    ensures RunReadsRows(clang, cfg, fs, previous, Ok(run))
  {
    hide *;
    LoadedFiles(cfg, fs, units);
    KeysReported(clang, fs, previous, units, run);
    EachRowIsDone(clang, cfg, fs, previous, units, run);
    FactsAddUp(cfg.rows, units, run);
    ReadsRows(clang, cfg, fs, previous, run);
  }

  lemma {:induction false} LoadedFiles(cfg: Config, fs: FileSystem, units: map<Path, TuIdentity>)
    requires Loads(cfg, cfg.rows, fs, Ok(units))
    ensures units.Keys == RowFiles(cfg.rows) <= fs.Keys
  {
  }

  lemma {:induction false} KeysReported(
      clang: Clang, fs: FileSystem, previous: map<Path, Entry>, units: map<Path, TuIdentity>, run: IncrementalRun)
    requires ReportsUnits(clang, fs, previous, units, run)
    ensures run.manifest.Keys == run.state.units.Keys == units.Keys
    ensures run.reparsed <= units.Keys && run.semanticReused <= units.Keys && run.semanticChanged <= units.Keys
  {
    hide EntryFor, MustReparse, SemanticallyReused;
  }

  lemma {:induction false} ReadsRows(
      clang: Clang, cfg: Config, fs: FileSystem, previous: map<Path, Entry>, run: IncrementalRun)
    requires run.manifest.Keys == run.state.units.Keys == RowFiles(cfg.rows) <= fs.Keys
    requires run.reparsed <= RowFiles(cfg.rows) && run.semanticReused <= RowFiles(cfg.rows)
    requires run.semanticChanged <= RowFiles(cfg.rows)
    requires forall k :: Decides(cfg.rows, k) ==> RowDone(clang, cfg, cfg.rows[k], fs, previous, run)
    requires FactsReported(cfg.rows, run)
    ensures RunReadsRows(clang, cfg, fs, previous, Ok(run))
  {
    hide RowDone, FactsReported, RowFiles;
  }

  lemma {:induction false} EachRowIsDone(
      clang: Clang, cfg: Config, fs: FileSystem, previous: map<Path, Entry>, units: map<Path, TuIdentity>,
      run: IncrementalRun)
    requires Loads(cfg, cfg.rows, fs, Ok(units)) && ReportsUnits(clang, fs, previous, units, run)
    ensures forall k :: Decides(cfg.rows, k) ==> RowDone(clang, cfg, cfg.rows[k], fs, previous, run)
  {
    hide RowDone, AsksFor, EntryFor, ReportsUnits;
    forall k | Decides(cfg.rows, k) ensures RowDone(clang, cfg, cfg.rows[k], fs, previous, run) {
      assert cfg.rows[k].file in RowFiles(cfg.rows);
      EntryOfUnit(clang, fs, previous, units, run, cfg.rows[k].file);
      RowIsDone(clang, cfg, cfg.rows[k], fs, previous, units, run);
    }
  }

  lemma {:induction false} EntryOfUnit(
      clang: Clang, fs: FileSystem, previous: map<Path, Entry>, units: map<Path, TuIdentity>, run: IncrementalRun,
      f: Path)
    requires ReportsUnits(clang, fs, previous, units, run) && f in units
    ensures f in run.state.units && EntryFor(clang, previous, f, units[f], fs) == Some(run.state.units[f])
  {
    hide EntryFor, MustReparse, SemanticallyReused;
  }

  lemma {:induction false} FactsAddUp(rows: seq<Row>, units: map<Path, TuIdentity>, run: IncrementalRun)
    requires units.Keys == RowFiles(rows) == run.state.units.Keys && AddsUpFacts(units, run)
    ensures FactsReported(rows, run)
  {
    hide Concatenated, FactTotal, EntryFacts, FactPlaces, RowFiles, Sorted, SortBy;
    FactsAreEntries(rows, units, run.state.units);
    FactsAreCounted(units, run.state.units, run.semanticChanged);
    FactsAreCounted(units, run.state.units, run.semanticReused);
  }

  lemma {:induction false} FactsAreEntries(rows: seq<Row>, units: map<Path, TuIdentity>, next: map<Path, Entry>)
    requires units.Keys == RowFiles(rows) == next.Keys
    ensures forall f :: f in SortedKeys(units.Keys) ==> f in next
    ensures var facts := SortBy(BY_ID, Concatenated(next, SortedKeys(units.Keys)));
            Sorted(BY_ID, facts) && multiset(facts) == EntryFacts(rows, next)
  {
    SortedKeysEnumerate(units.Keys);
    EntriesAreConcatenated(rows, next, SortedKeys(units.Keys));
    hide Concatenated, EntryFacts, RowFiles;
    ByIdIsPreorder();
    SortBySorts(BY_ID, Concatenated(next, SortedKeys(units.Keys)));
  }

  lemma {:induction false} FactsAreCounted(units: map<Path, TuIdentity>, next: map<Path, Entry>, keep: set<Path>)
    requires units.Keys == next.Keys
    ensures forall f :: f in SortedKeys(units.Keys) ==> f in next
    ensures FactTotal(next, SortedKeys(units.Keys), keep) == |FactPlaces(next, keep)|
  {
    var files := SortedKeys(units.Keys);
    SortedKeysMeaning(units.Keys);
    TotalsCountPlaces(next, files, keep);
    hide FactTotal;
    assert FactPlaces(next, keep * Elems(files)) == FactPlaces(next, keep);
  }

  lemma {:induction false} FailedFile(
      clang: Clang, previous: map<Path, Entry>, units: map<Path, TuIdentity>, fs: FileSystem, files: seq<Path>)
    requires forall f :: f in files ==> f in units
    requires NextUnits(clang, previous, units, fs, files).Err?
    ensures exists f :: f in files && FreshEntry(clang, units[f], fs).None?
                        && NextUnits(clang, previous, units, fs, files) == Err(FrontendFailed(f))
    decreases |files|
  {
    hide FreshEntry, MustReparse;
    if NextUnits(clang, previous, units, fs, files[..|files| - 1]).Err? {
      FailedFile(clang, previous, units, fs, files[..|files| - 1]);
    }
  }

  lemma {:induction false} RowIsDone(
      clang: Clang, cfg: Config, row: Row, fs: FileSystem, previous: map<Path, Entry>,
      units: map<Path, TuIdentity>, run: IncrementalRun)
    requires row.file in units && AsksFor(cfg, row, fs, units[row.file])
    requires ReportsUnits(clang, fs, previous, units, run)
    ensures RowDone(clang, cfg, row, fs, previous, run)
  {
    FreshEntryMeaning(clang, units[row.file], fs);
    MustReparseIff(cfg, row, fs, previous, units[row.file]);
    hide FreshEntry, Reports, MustReparse, OutOfDate, AsksFor;
  }

  lemma {:induction false} MustReparseIff(
      cfg: Config, row: Row, fs: FileSystem, previous: map<Path, Entry>, id: TuIdentity)
    requires AsksFor(cfg, row, fs, id)
    ensures MustReparse(previous, row.file, id, fs) <==> OutOfDate(cfg, row, fs, previous)
    ensures !MustReparse(previous, row.file, id, fs) ==> row.file in previous && previous[row.file].identity == id
  {
  }

  // ---------- histories ----------

  datatype Event =
    | Edit(fs: FileSystem)
    | Configure(cfg: Config)
    | RunOnce(publish: bool)
    | PublishEarlier(k: nat)

  /** The files, the configuration, the published cache, and the states of all runs made so far. */
  datatype World = World(fs: FileSystem, cfg: Config, cache: Option<State>, made: seq<State>)

  ghost function After(clang: Clang, w: World, event: Event): World {
    match event
    case Edit(fs) => w.(fs := fs)
    case Configure(cfg) => w.(cfg := cfg)
    case RunOnce(publish) =>
      (match RunSpec(clang, w.cfg, w.fs, w.cache)
       case Err(_) => w
       case Ok(run) => w.(made := w.made + [run.state], cache := if publish then Some(run.state) else w.cache))
    case PublishEarlier(k) => if k < |w.made| then w.(cache := Some(w.made[k])) else w
  }

  ghost function Replay(clang: Clang, w: World, history: seq<Event>): World
    decreases |history|
  {
    if history == [] then w else Replay(clang, After(clang, w, history[0]), history[1..])
  }

  const EMPTY_WORLD := World(map[], Config([], "", "", ""), None, [])

  /** After any history, the next run returns what analysing everything would return. */
  ghost predicate CacheIsSound(clang: Clang) {
    forall history: seq<Event> ::
      var w := Replay(clang, EMPTY_WORLD, history);
      RunFacts(clang, w.cfg, w.fs, w.cache) == ScratchFacts(clang, w.cfg, w.fs)
  }

  /** `fs` still has every dependency recorded when `id` was analysed in `at`. */
  ghost predicate KeepsRecorded(clang: Clang, id: TuIdentity, at: FileSystem, fs: FileSystem)
    requires clang(id, at).Some?
  {
    forall p :: p in clang(id, at).value.dependencies && p in at ==> p in fs && fs[p] == at[p]
  }

  function FactsOf(clang: Clang, id: TuIdentity, fs: FileSystem): Option<seq<Fact>> {
    match clang(id, fs)
    case None => None
    case Some(a) => Some(SortBy(BY_ID, a.facts))
  }

  /**
   The analysis of a unit is determined by the unit's identity and the contents
   of the dependencies that were recorded for it.
   */
  ghost predicate DeterminedByRecorded(clang: Clang) {
    forall id: TuIdentity, at: FileSystem, fs: FileSystem ::
      id.file in at && id.file in fs && at[id.file] == id.source == fs[id.file] &&
      clang(id, at).Some? && KeepsRecorded(clang, id, at, fs) ==>
        FactsOf(clang, id, fs) == FactsOf(clang, id, at)
  }

  // ---------- soundness: every cached entry was once the truth ----------

  ghost predicate WasFresh(clang: Clang, e: Entry, at: FileSystem) {
    && FreshEntry(clang, e.identity, at) == Some(e)
    && e.identity.file in at && at[e.identity.file] == e.identity.source
  }

  ghost predicate Honest(clang: Clang, file: Path, e: Entry) {
    e.identity.file == file && exists at :: WasFresh(clang, e, at)
  }

  ghost predicate Truthful(clang: Clang, state: State) {
    forall f :: f in state.units ==> Honest(clang, f, state.units[f])
  }

  ghost predicate Invariant(clang: Clang, w: World) {
    && (w.cache.Some? ==> Truthful(clang, w.cache.value))
    && forall k :: 0 <= k < |w.made| ==> Truthful(clang, w.made[k])
  }

  lemma {:induction false} UnitsAreCurrent(cfg: Config, rows: seq<Row>, fs: FileSystem)
    requires Units(cfg, rows, fs).Ok?
    ensures forall f :: f in Units(cfg, rows, fs).value ==>
              var id := Units(cfg, rows, fs).value[f];
              id.file == f && f in fs && fs[f] == id.source
    decreases |rows|
  {
    if rows != [] {
      UnitsAreCurrent(cfg, rows[..|rows| - 1], fs);
    }
  }

  lemma {:induction false} NextUnitsAreTruthful(
    clang: Clang, previous: map<Path, Entry>, units: map<Path, TuIdentity>, fs: FileSystem, files: seq<Path>)
    requires forall f :: f in files ==> f in units && units[f].file == f && f in fs && fs[f] == units[f].source
    requires Truthful(clang, State(previous, map[]))
    requires NextUnits(clang, previous, units, fs, files).Ok?
    ensures Truthful(clang, State(NextUnits(clang, previous, units, fs, files).value, map[]))
    decreases |files|
  {
    hide WasFresh, FreshEntry;
    if files != [] {
      var file := files[|files| - 1];
      NextUnitsAreTruthful(clang, previous, units, fs, files[..|files| - 1]);
      EntryIsHonest(clang, previous, file, units[file], fs);
    }
  }

  lemma {:induction false} EntryIsHonest(
      clang: Clang, previous: map<Path, Entry>, file: Path, id: TuIdentity, fs: FileSystem)
    requires Truthful(clang, State(previous, map[]))
    requires id.file == file && file in fs && fs[file] == id.source
    ensures var e := EntryFor(clang, previous, file, id, fs); e.Some? ==> Honest(clang, file, e.value)
  {
    if MustReparse(previous, file, id, fs) && FreshEntry(clang, id, fs).Some? {
      assert WasFresh(clang, FreshEntry(clang, id, fs).value, fs);
    }
  }

  lemma {:induction false} RunIsTruthful(clang: Clang, cfg: Config, fs: FileSystem, cache: Option<State>)
    requires cache.Some? ==> Truthful(clang, cache.value)
    requires RunSpec(clang, cfg, fs, cache).Ok?
    ensures Truthful(clang, RunSpec(clang, cfg, fs, cache).value.state)
  {
    var units := Units(cfg, cfg.rows, fs).value;
    UnitsAreCurrent(cfg, cfg.rows, fs);
    SortedKeysMeaning(units.Keys);
    NextUnitsAreTruthful(clang, PreviousUnits(cache), units, fs, SortedKeys(units.Keys));
  }

  lemma {:induction false} ReplayKeepsInvariant(clang: Clang, w: World, history: seq<Event>)
    requires Invariant(clang, w)
    ensures Invariant(clang, Replay(clang, w, history))
    decreases |history|
  {
    if history != [] {
      if history[0].RunOnce? && RunSpec(clang, w.cfg, w.fs, w.cache).Ok? {
        RunIsTruthful(clang, w.cfg, w.fs, w.cache);
      }
      ReplayKeepsInvariant(clang, After(clang, w, history[0]), history[1..]);
    }
  }

  /** A reused entry has the facts a fresh analysis would give. */
  lemma {:induction false} ReusedEntryIsCurrent(
      clang: Clang, previous: map<Path, Entry>, file: Path, id: TuIdentity, fs: FileSystem)
    requires DeterminedByRecorded(clang) && Truthful(clang, State(previous, map[]))
    requires id.file == file && file in fs && fs[file] == id.source
    ensures var e := EntryFor(clang, previous, file, id, fs);
            var anew := FreshEntry(clang, id, fs);
            e.Some? == anew.Some? && (e.Some? ==> e.value.facts == anew.value.facts)
  {
    if !MustReparse(previous, file, id, fs) {
      var prior := previous[file];
      var at :| WasFresh(clang, prior, at);
      assert KeepsRecorded(clang, id, at, fs) by {
        forall p | p in clang(id, at).value.dependencies && p in at ensures p in fs && fs[p] == at[p] {
          assert p in prior.digests && !DependencyMoved(prior, fs);
        }
      }
    }
  }

  lemma {:induction false} NextIsScratch(
    clang: Clang, previous: map<Path, Entry>, units: map<Path, TuIdentity>, fs: FileSystem, files: seq<Path>)
    requires DeterminedByRecorded(clang) && Truthful(clang, State(previous, map[]))
    requires forall f :: f in files ==> f in units && units[f].file == f && f in fs && fs[f] == units[f].source
    ensures match (NextUnits(clang, previous, units, fs, files), ScratchUnits(clang, units, fs, files))
            case (Ok(a), Ok(b)) => a.Keys == b.Keys && forall f :: f in a ==> a[f].facts == b[f].facts
            case (Err(x), Err(y)) => x == y
            case _ => false
    decreases |files|
  {
    hide DeterminedByRecorded, Truthful, EntryFor, FreshEntry;
    if files != [] {
      var file := files[|files| - 1];
      NextIsScratch(clang, previous, units, fs, files[..|files| - 1]);
      ReusedEntryIsCurrent(clang, previous, file, units[file], fs);
    }
  }

  lemma {:induction false} SameFactsSameConcatenation(a: map<Path, Entry>, b: map<Path, Entry>, files: seq<Path>)
    requires forall f :: f in files ==> f in a && f in b && a[f].facts == b[f].facts
    ensures Concatenated(a, files) == Concatenated(b, files)
    decreases |files|
  {
    if files != [] {
      SameFactsSameConcatenation(a, b, files[..|files| - 1]);
    }
  }

  lemma {:induction false} RunMatchesScratch(clang: Clang, cfg: Config, fs: FileSystem, cache: Option<State>)
    requires DeterminedByRecorded(clang)
    requires cache.Some? ==> Truthful(clang, cache.value)
    ensures RunFacts(clang, cfg, fs, cache) == ScratchFacts(clang, cfg, fs)
    ensures FromScratch(clang, cfg, fs, RunFacts(clang, cfg, fs, cache))
  {
    ScratchReadsTheRows(clang, cfg, fs);
    hide FromScratch;
    var loaded := Units(cfg, cfg.rows, fs);
    if loaded.Ok? {
      var units := loaded.value;
      var files := SortedKeys(units.Keys);
      UnitsAreCurrent(cfg, cfg.rows, fs);
      SortedKeysMeaning(units.Keys);
      NextIsScratch(clang, PreviousUnits(cache), units, fs, files);
      var a, b := NextUnits(clang, PreviousUnits(cache), units, fs, files), ScratchUnits(clang, units, fs, files);
      if a.Ok? {
        SameFactsSameConcatenation(a.value, b.value, files);
      }
    }
  }

  // ---------- and only then ----------

  lemma {:induction false} SingleUnitRun(clang: Clang, cfg: Config, row: Row, fs: FileSystem, cache: Option<State>)
    requires cfg.rows == [row] && row.file in fs
    ensures var id := IdentityOf(cfg, row, fs);
            && Units(cfg, cfg.rows, fs) == Ok(map[row.file := id])
            && SortedKeys({row.file}) == [row.file]
            && ScratchFacts(clang, cfg, fs) ==
               (match FactsOf(clang, id, fs)
                case None => Err(FrontendFailed(row.file))
                case Some(facts) => Ok(SortBy(BY_ID, facts)))
            && (match EntryFor(clang, PreviousUnits(cache), row.file, id, fs)
                case None => RunSpec(clang, cfg, fs, cache) == Err(FrontendFailed(row.file))
                case Some(e) =>
                  var r := RunSpec(clang, cfg, fs, cache);
                  r.Ok? && r.value.facts == SortBy(BY_ID, e.facts) && r.value.state.units == map[row.file := e])
  {
    var id, files := IdentityOf(cfg, row, fs), [row.file];
    assert cfg.rows[..0] == [];
    var units: map<Path, TuIdentity> := map[row.file := id];
    assert Units(cfg, cfg.rows, fs) == Ok(units);
    assert units.Keys == {row.file};
    LeqTotal(row.file, row.file);
    SortedKeysStep({row.file}, row.file);
    assert {row.file} - {row.file} == {};
    assert SortedKeys({row.file}) == files;
    assert files[..0] == [];
    var previous := PreviousUnits(cache);
    assert NextUnits(clang, previous, units, fs, []) == Ok(map[]);
    assert ScratchUnits(clang, units, fs, []) == Ok(map[]);
    match EntryFor(clang, previous, row.file, id, fs)
    case None =>
      assert NextUnits(clang, previous, units, fs, files) == Err(FrontendFailed(row.file));
    case Some(e) =>
      var next: map<Path, Entry> := map[row.file := e];
      assert NextUnits(clang, previous, units, fs, files) == Ok(next);
      assert Concatenated(next, files) == [] + e.facts;
      assert [] + e.facts == e.facts;
    match FreshEntry(clang, id, fs)
    case None =>
    case Some(e) =>
      var next: map<Path, Entry> := map[row.file := e];
      assert ScratchUnits(clang, units, fs, files) == Ok(next);
      assert Concatenated(next, files) == [] + e.facts;
      assert [] + e.facts == e.facts;
  }

  lemma {:induction false} SortedUnitFacts(clang: Clang, id: TuIdentity, fs: FileSystem)
    requires FactsOf(clang, id, fs).Some?
    ensures SortBy(BY_ID, FactsOf(clang, id, fs).value) == FactsOf(clang, id, fs).value
  {
    ByTextIsPreorder((f: Fact) => f.id);
    SortBySorts(BY_ID, clang(id, fs).value.facts);
    SortByOfSorted(BY_ID, FactsOf(clang, id, fs).value);
  }

  /** A history in which the cache is filled at `at` and asked again at `fs`. */
  function TwoRuns(cfg: Config, at: FileSystem, fs: FileSystem): seq<Event> {
    [Configure(cfg), Edit(at), RunOnce(true), Edit(fs)]
  }

  lemma {:induction false} ReplayTwoRuns(clang: Clang, cfg: Config, at: FileSystem, fs: FileSystem)
    requires RunSpec(clang, cfg, at, None).Ok?
    ensures var w := Replay(clang, EMPTY_WORLD, TwoRuns(cfg, at, fs));
            w.cfg == cfg && w.fs == fs && w.cache == Some(RunSpec(clang, cfg, at, None).value.state)
  {
    var h := TwoRuns(cfg, at, fs);
    var w1 := After(clang, EMPTY_WORLD, h[0]);
    var w2 := After(clang, w1, h[1]);
    var w3 := After(clang, w2, h[2]);
    assert h[1..][1..] == h[2..] && h[2..][1..] == h[3..] && h[3..][1..] == [];
    assert Replay(clang, w3, h[3..]) == After(clang, w3, h[3]);
    assert Replay(clang, w2, h[2..]) == Replay(clang, w3, h[3..]);
    assert Replay(clang, w1, h[1..]) == Replay(clang, w2, h[2..]);
  }

  /** If an analysis depends on anything else, some history returns stale facts. */
  lemma {:induction false} OtherwiseSomeHistoryIsStale(clang: Clang, id: TuIdentity, at: FileSystem, fs: FileSystem)
    requires id.file in at && id.file in fs && at[id.file] == id.source == fs[id.file]
    requires clang(id, at).Some? && KeepsRecorded(clang, id, at, fs)
    requires FactsOf(clang, id, fs) != FactsOf(clang, id, at)
    ensures !CacheIsSound(clang)
  {
    hide Replay, CacheIsSound, RunSpec, Units, KeepsRecorded, FreshEntry, MustReparse;
    var row := Row(id.file, id.command);
    var cfg := Config([row], id.clang, id.provider, id.schema);
    assert IdentityOf(cfg, row, at) == id && IdentityOf(cfg, row, fs) == id;
    SingleUnitRun(clang, cfg, row, at, None);
    FirstEntry(clang, id, at);
    ReplayTwoRuns(clang, cfg, at, fs);
    var cache := Some(RunSpec(clang, cfg, at, None).value.state);
    SingleUnitRun(clang, cfg, row, fs, cache);
    EntryIsKept(clang, id, at, fs, PreviousUnits(cache));
    SortedUnitFacts(clang, id, at);
    if FactsOf(clang, id, fs).Some? {
      SortedUnitFacts(clang, id, fs);
    }
    HistoryIsStale(clang, TwoRuns(cfg, at, fs));
  }

  /** With nothing cached the unit is analysed. */
  lemma {:induction false} FirstEntry(clang: Clang, id: TuIdentity, at: FileSystem)
    requires clang(id, at).Some?
    ensures EntryFor(clang, map[], id.file, id, at) == FreshEntry(clang, id, at) && FreshEntry(clang, id, at).Some?
    ensures FreshEntry(clang, id, at).value.facts == FactsOf(clang, id, at).value
  {
  }

  /** The cached entry is kept while everything recorded for it is unchanged. */
  lemma {:induction false} EntryIsKept(
      clang: Clang, id: TuIdentity, at: FileSystem, fs: FileSystem, previous: map<Path, Entry>)
    requires clang(id, at).Some? && KeepsRecorded(clang, id, at, fs)
    requires FreshEntry(clang, id, at).Some? && previous == map[id.file := FreshEntry(clang, id, at).value]
    ensures EntryFor(clang, previous, id.file, id, fs) == FreshEntry(clang, id, at)
  {
  }

  lemma {:induction false} HistoryIsStale(clang: Clang, history: seq<Event>)
    requires var w := Replay(clang, EMPTY_WORLD, history);
      RunFacts(clang, w.cfg, w.fs, w.cache) != ScratchFacts(clang, w.cfg, w.fs)
    ensures !CacheIsSound(clang)
  {
  }

  /**
   The cache is sound over every history of edits, configuration changes, runs,
   and immediate, late or skipped publishes exactly when the analysis of a unit is
   determined by its identity and its recorded dependencies.
   */
  lemma {:induction false} CacheIsSoundIffDetermined(clang: Clang)
    ensures CacheIsSound(clang) <==> DeterminedByRecorded(clang)
    ensures CacheIsSound(clang) ==> forall history: seq<Event> ::
      var w := Replay(clang, EMPTY_WORLD, history);
      FromScratch(clang, w.cfg, w.fs, RunFacts(clang, w.cfg, w.fs, w.cache))
  {
    hide FromScratch;
    if DeterminedByRecorded(clang) {
      forall history: seq<Event>
        ensures var w := Replay(clang, EMPTY_WORLD, history);
          && RunFacts(clang, w.cfg, w.fs, w.cache) == ScratchFacts(clang, w.cfg, w.fs)
          && FromScratch(clang, w.cfg, w.fs, RunFacts(clang, w.cfg, w.fs, w.cache))
      {
        var w := Replay(clang, EMPTY_WORLD, history);
        ReplayKeepsInvariant(clang, EMPTY_WORLD, history);
        RunMatchesScratch(clang, w.cfg, w.fs, w.cache);
      }
    } else {
      var id: TuIdentity, at: FileSystem, fs: FileSystem :|
        id.file in at && id.file in fs && at[id.file] == id.source == fs[id.file] &&
        clang(id, at).Some? && KeepsRecorded(clang, id, at, fs) &&
        FactsOf(clang, id, fs) != FactsOf(clang, id, at);
      OtherwiseSomeHistoryIsStale(clang, id, at, fs);
    }
  }

  /** A frontend that searches two include directories in order for one header. */
  function TwoIncludeDirectories(id: TuIdentity, fs: FileSystem): Option<Analysis> {
    var header := if "a/x.h" in fs then "a/x.h" else "b/x.h";
    if header !in fs then None
    else Some(Analysis([Fact("f", fs[header], id.file)], [id.file, header]))
  }

  /** A header that appears earlier on the include path was no recorded dependency: the cache misses it. */
  lemma {:induction false} ShadowingHeaderGoesUnnoticed()
    ensures !CacheIsSound(TwoIncludeDirectories)
  {
    var id := TuIdentity("m.c", "cc", "main", "", "", "");
    var at: FileSystem := map["m.c" := "main", "b/x.h" := "b"];
    var fs := at["a/x.h" := "a"];
    assert KeepsRecorded(TwoIncludeDirectories, id, at, fs);
    var facts, facts' := FactsOf(TwoIncludeDirectories, id, at).value, FactsOf(TwoIncludeDirectories, id, fs).value;
    assert Fact("f", "b", "m.c") in multiset(facts) && Fact("f", "b", "m.c") !in multiset(facts');
    OtherwiseSomeHistoryIsStale(TwoIncludeDirectories, id, at, fs);
  }

  // ---------- what a run reports about itself ----------

  lemma {:induction false} TotalsPartition(units: map<Path, Entry>, files: seq<Path>, a: set<Path>, b: set<Path>)
    requires forall f :: f in files ==> f in units && (f in a <==> f !in b)
    ensures FactTotal(units, files, a) + FactTotal(units, files, b) == |Concatenated(units, files)|
    decreases |files|
  {
    if files != [] {
      TotalsPartition(units, files[..|files| - 1], a, b);
    }
  }

  lemma {:induction false} UntouchedEntries(
    clang: Clang, previous: map<Path, Entry>, units: map<Path, TuIdentity>, fs: FileSystem, files: seq<Path>)
    requires forall f :: f in files ==> f in units
    requires NextUnits(clang, previous, units, fs, files).Ok?
    ensures var next := NextUnits(clang, previous, units, fs, files).value;
            forall f :: f in next ==> EntryFor(clang, previous, f, units[f], fs) == Some(next[f])
    decreases |files|
  {
    if files != [] {
      UntouchedEntries(clang, previous, units, fs, files[..|files| - 1]);
    }
  }

  /** The two fact counts of a run split its facts. */
  lemma {:induction false} FactCountsSplitTheResult(clang: Clang, cfg: Config, fs: FileSystem, cache: Option<State>)
    requires RunSpec(clang, cfg, fs, cache).Ok?
    ensures var run := RunSpec(clang, cfg, fs, cache).value; run.factsChanged + run.factsReused == |run.facts|
  {
    var units := Units(cfg, cfg.rows, fs).value;
    var files := SortedKeys(units.Keys);
    SortedKeysMeaning(units.Keys);
    var run := RunSpec(clang, cfg, fs, cache).value;
    TotalsPartition(run.state.units, files, run.semanticChanged, run.semanticReused);
    SameLength(Concatenated(run.state.units, files), run.facts);
  }

  lemma {:induction false} IdentityIffSemanticsKept(previous: map<Path, Entry>, next: map<Path, Entry>)
    ensures SemanticOf(next) == SemanticOf(previous) <==>
            next.Keys == previous.Keys && forall f :: f in next ==> SemanticallyReused(previous, next, f)
  {
    assert SemanticOf(previous).Keys == previous.Keys && SemanticOf(next).Keys == next.Keys;
    if SemanticOf(next) == SemanticOf(previous) {
      forall f | f in next ensures SemanticallyReused(previous, next, f) {
        assert SemanticOf(next)[f] == SemanticOf(previous)[f];
      }
    }
  }

  lemma {:induction false} QuietReparseKeepsEntries(clang: Clang, cfg: Config, fs: FileSystem, cache: Option<State>)
    requires RunSpec(clang, cfg, fs, cache).Ok?
    ensures var run := RunSpec(clang, cfg, fs, cache).value;
            run.reparsed == {} ==>
              run.semanticChanged == {} &&
              forall f :: f in run.state.units ==>
                  f in PreviousUnits(cache) && run.state.units[f] == PreviousUnits(cache)[f]
  {
    var previous := PreviousUnits(cache);
    var units := Units(cfg, cfg.rows, fs).value;
    var files := SortedKeys(units.Keys);
    SortedKeysMeaning(units.Keys);
    var run := RunSpec(clang, cfg, fs, cache).value;
    UntouchedEntries(clang, previous, units, fs, files);
    if run.reparsed == {} {
      forall f | f in run.state.units ensures f in previous && run.state.units[f] == previous[f] {
        assert f in units && f !in run.reparsed;
      }
    }
  }

  /**
   A quiet cutoff means no unit changed its meaning, and the result identity is
   the published one exactly when the cutoff is quiet and no unit was dropped.
   */
  lemma {:induction false} CutoffMeansSameResult(clang: Clang, cfg: Config, fs: FileSystem, cache: Option<State>)
    requires RunSpec(clang, cfg, fs, cache).Ok?
    ensures var run := RunSpec(clang, cfg, fs, cache).value;
            var previous := PreviousUnits(cache);
            && (run.cutoff == InputIdentityUnchanged ==>
                  forall f :: f in run.state.units ==> f in previous && run.state.units[f] == previous[f])
            && (run.cutoff != NoCutoff <==> run.semanticChanged == {})
            && (run.state.resultIdentity == SemanticOf(previous) <==>
                  run.cutoff != NoCutoff && run.state.units.Keys == previous.Keys)
  {
    var run := RunSpec(clang, cfg, fs, cache).value;
    QuietReparseKeepsEntries(clang, cfg, fs, cache);
    IdentityIffSemanticsKept(PreviousUnits(cache), run.state.units);
    ChangedSetMeaning(clang, cfg, fs, cache);
    hide SemanticOf, NextUnits;
  }

  lemma {:induction false} ChangedSetMeaning(clang: Clang, cfg: Config, fs: FileSystem, cache: Option<State>)
    requires RunSpec(clang, cfg, fs, cache).Ok?
    ensures var run := RunSpec(clang, cfg, fs, cache).value;
            run.semanticChanged == {} <==>
            forall f :: f in run.state.units ==> SemanticallyReused(PreviousUnits(cache), run.state.units, f)
  {
    var run := RunSpec(clang, cfg, fs, cache).value;
    forall f | f in run.state.units
      ensures f in run.semanticChanged <==> !SemanticallyReused(PreviousUnits(cache), run.state.units, f)
    {
    }
  }

  lemma {:induction false} SameLength(a: seq<Fact>, b: seq<Fact>)
    requires multiset(a) == multiset(b)
    ensures |a| == |b|
  {
    assert |multiset(a)| == |a| && |multiset(b)| == |b|;
  }
}
