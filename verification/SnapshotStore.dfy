/**
 The snapshot store of one repository: staging, support receipts, publication and
 rollback, over every sequence of index transactions and support overlays.
 */
module SnapshotStore {
  import opened Prelude

  /** A row of the node or of the edge table; its id is the key it is stored under. */
  datatype Fact =
    | Node(kind: string, name: string, qname: string, language: string, path: string)
    | Edge(kind: string, source: string, target: string)

  /** What a canonical support receipt is bound to, and who vouches for it. */
  datatype Receipt = Receipt(fact: string, kind: string, owner: string, lane: string, build: string, analysis: string)

  function EdgeId(kind: string, source: string, target: string): string {
    "edge:" + kind + ":" + source + ":" + target
  }

  datatype Snapshot = Snapshot(id: string, parent: Option<string>, published: bool, created: int)

  /**
   The tables: snapshots in row order, and per snapshot its facts by id and its receipts.
   */
  datatype Db = Db(
    rows: seq<Snapshot>,
    facts: map<string, map<string, Fact>>,
    receipts: map<string, set<Receipt>>)

  function Ids(rows: seq<Snapshot>): set<string> {
    set r | r in rows :: r.id
  }

  function FactsOf(db: Db, sid: string): map<string, Fact> {
    if sid in db.facts then db.facts[sid] else map[]
  }

  function ReceiptsOf(db: Db, sid: string): set<Receipt> {
    if sid in db.receipts then db.receipts[sid] else {}
  }

  function SupportedFacts(db: Db, sid: string): set<string> {
    set r | r in ReceiptsOf(db, sid) :: r.fact
  }

  // ---------- the current snapshot ----------

  function Max(a: int, b: int): int {
    if a >= b then a else b
  }

  /** The largest creation time, 0 for an empty table. */
  function LastCreated(rows: seq<Snapshot>): int {
    if rows == [] then 0
    else if |rows| == 1 then rows[0].created
    else Max(LastCreated(rows[..|rows| - 1]), rows[|rows| - 1].created)
  }

  /** Among the published rows the newest, the later row winning a tie. */
  function CurrentRow(rows: seq<Snapshot>): Option<Snapshot> {
    if rows == [] then None
    else
      var last := rows[|rows| - 1];
      match CurrentRow(rows[..|rows| - 1])
      case None => if last.published then Some(last) else None
      case Some(best) => if last.published && last.created >= best.created then Some(last) else Some(best)
  }

  /** No published row is newer than row i, and of those as new none comes later. */
  ghost predicate Newest(rows: seq<Snapshot>, i: int) {
    && 0 <= i < |rows| && rows[i].published
    && forall j :: 0 <= j < |rows| && j != i && rows[j].published ==>
         rows[j].created < rows[i].created || (rows[j].created == rows[i].created && j < i)
  }

  /** The row the query picks, in any table whatever. */
  lemma {:induction false} CurrentIsNewest(rows: seq<Snapshot>)
    ensures CurrentRow(rows).Some? <==> exists i :: 0 <= i < |rows| && rows[i].published
    ensures CurrentRow(rows).Some? ==> exists i :: Newest(rows, i) && CurrentRow(rows) == Some(rows[i])
  {
    if rows != [] {
      var n := |rows| - 1;
      CurrentIsNewest(rows[..n]);
      assert forall j :: 0 <= j < n ==> rows[..n][j] == rows[j];
      if CurrentRow(rows[..n]).Some? {
        var i :| Newest(rows[..n], i) && CurrentRow(rows[..n]) == Some(rows[..n][i]);
        assert Newest(rows, if rows[n].published && rows[n].created >= rows[i].created then n else i);
      } else if rows[n].published {
        assert Newest(rows, n);
      }
    }
  }

  lemma {:induction false} LastCreatedIsGreatest(rows: seq<Snapshot>)
    ensures rows == [] ==> LastCreated(rows) == 0
    ensures rows != [] ==> exists i :: 0 <= i < |rows| && rows[i].created == LastCreated(rows)
    ensures forall i :: 0 <= i < |rows| ==> rows[i].created <= LastCreated(rows)
  {
    if |rows| > 1 {
      var n := |rows| - 1;
      LastCreatedIsGreatest(rows[..n]);
      assert forall j :: 0 <= j < n ==> rows[..n][j] == rows[j];
      var i :| 0 <= i < n && rows[..n][i].created == LastCreated(rows[..n]);
      assert rows[if rows[n].created > rows[i].created then n else i].created == LastCreated(rows);
    } else if |rows| == 1 {
      assert rows[0].created == LastCreated(rows);
    }
  }

  function Current(db: Db): Option<string> {
    match CurrentRow(db.rows)
    case None => None
    case Some(r) => Some(r.id)
  }

  // ---------- staging ----------

  /** What an index run does to its own staging snapshot. */
  datatype Op =
    | PutNode(id: string, node: Fact)
    | PutEdge(kind: string, source: string, target: string)
    | AddReceipt(receipt: Receipt)
    | DropFacts(facts: set<string>)
    | DropReceipts(owners: set<string>)
    | Prune
    | Raise

  predicate Staging(db: Db, sid: string) {
    exists r :: r in db.rows && r.id == sid && !r.published
  }

  function NewSnapshot(db: Db, sid: string, parent: Option<string>, now: int): Option<Db> {
    if sid in Ids(db.rows) then None
    else Some(db.(
      rows := db.rows + [Snapshot(sid, parent, false, Max(now, LastCreated(db.rows) + 1))],
      facts := db.facts[sid := map[]],
      receipts := db.receipts[sid := {}]))
  }

  /** Facts and receipts of a published parent; None when the source raises. */
  function CopyPrevious(db: Db, sid: string, parent: string): Option<Db> {
    if !Staging(db, sid) || !(exists r :: r in db.rows && r.id == parent && r.published) then None
    else Some(db.(
      facts := db.facts[sid := FactsOf(db, sid) + FactsOf(db, parent)],
      receipts := db.receipts[sid := ReceiptsOf(db, sid) + ReceiptsOf(db, parent)]))
  }

  function Apply(db: Db, sid: string, op: Op): Option<Db> {
    match op
    case PutNode(id, n) => Some(db.(facts := db.facts[sid := FactsOf(db, sid)[id := n]]))
    case PutEdge(k, a, b) =>
      var known := FactsOf(db, sid);
      var id := EdgeId(k, a, b);
      Some(db.(facts := db.facts[sid := if id in known then known else known[id := Edge(k, a, b)]]))
    case AddReceipt(r) =>
      if !Staging(db, sid) then None
      else if r.fact !in FactsOf(db, sid) || FactsOf(db, sid)[r.fact].kind != r.kind then None
      else Some(db.(receipts := db.receipts[sid := ReceiptsOf(db, sid) + {r}]))
    case DropFacts(fs) => Some(db.(facts := db.facts[sid := FactsOf(db, sid) - fs]))
    case DropReceipts(owners) =>
      if owners == {} then Some(db)
      else if !Staging(db, sid) then None
      else Some(db.(receipts := db.receipts[sid := set r | r in ReceiptsOf(db, sid) && r.owner !in owners]))
    case Prune =>
      if !Staging(db, sid) then None
      else Some(db.(receipts := db.receipts[sid := set r | r in ReceiptsOf(db, sid) && r.fact in FactsOf(db, sid)]))
    case Raise => None
  }

  ghost predicate IsOpen(db: Db, sid: string) {
    exists i :: 0 <= i < |db.rows| && db.rows[i].id == sid && !db.rows[i].published
  }

  /** An operation raises on its own, on a snapshot that is not open, or for a receipt without its fact. */
  ghost predicate Raises(db: Db, sid: string, op: Op) {
    || op == Raise
    || ((op.AddReceipt? || op.Prune? || (op.DropReceipts? && op.owners != {})) && !IsOpen(db, sid))
    || (op.AddReceipt?
        && !(op.receipt.fact in FactsOf(db, sid) && FactsOf(db, sid)[op.receipt.fact].kind == op.receipt.kind))
  }

  /** The fact an operation stores under f, if any. */
  ghost function FactAfter(known: map<string, Fact>, op: Op, f: string): Option<Fact> {
    if op.PutNode? && op.id == f then Some(op.node)
    else if op.PutEdge? && EdgeId(op.kind, op.source, op.target) == f && f !in known then
      Some(Edge(op.kind, op.source, op.target))
    else if f !in known || (op.DropFacts? && f in op.facts) then None
    else Some(known[f])
  }

  ghost predicate ReceiptAfter(db: Db, sid: string, op: Op, r: Receipt) {
    || (op.AddReceipt? && r == op.receipt)
    || (r in ReceiptsOf(db, sid) && !(op.DropReceipts? && r.owner in op.owners)
        && !(op.Prune? && r.fact !in FactsOf(db, sid)))
  }

  lemma {:induction false} OpenIsStaging(db: Db, sid: string)
    ensures IsOpen(db, sid) <==> Staging(db, sid)
  {
    if Staging(db, sid) {
      var r :| r in db.rows && r.id == sid && !r.published;
      var i :| 0 <= i < |db.rows| && db.rows[i] == r;
    }
    if IsOpen(db, sid) {
      var i :| 0 <= i < |db.rows| && db.rows[i].id == sid && !db.rows[i].published;
      assert db.rows[i] in db.rows;
    }
  }

  /** One operation, fact by fact and receipt by receipt. */
  lemma {:induction false} ApplyMeaning(db: Db, sid: string, op: Op)
    ensures Apply(db, sid, op).None? <==> Raises(db, sid, op)
    ensures Apply(db, sid, op).Some? ==>
      var d := Apply(db, sid, op).value;
      && d.rows == db.rows
      && (forall f :: f in FactsOf(d, sid) <==> FactAfter(FactsOf(db, sid), op, f).Some?)
      && (forall f :: f in FactsOf(d, sid) ==> Some(FactsOf(d, sid)[f]) == FactAfter(FactsOf(db, sid), op, f))
      && (forall r :: r in ReceiptsOf(d, sid) <==> ReceiptAfter(db, sid, op, r))
  {
    OpenIsStaging(db, sid);
    hide IsOpen, Staging, EdgeId;
  }

  function ApplyAll(db: Db, sid: string, work: seq<Op>): Option<Db> {
    if work == [] then Some(db)
    else match ApplyAll(db, sid, work[..|work| - 1])
      case None => None
      case Some(d) => Apply(d, sid, work[|work| - 1])
  }

  /** Facts with neither a receipt here nor a place in the parent graph. */
  function Unsupported(db: Db, sid: string, parent: Option<string>): set<string> {
    FactsOf(db, sid).Keys - SupportedFacts(db, sid)
      - (if parent.Some? then FactsOf(db, parent.value).Keys else {})
  }

  function MarkPublished(rows: seq<Snapshot>, sid: string): (r: seq<Snapshot>)
    ensures |r| == |rows|
  {
    seq(|rows|, i requires 0 <= i < |rows| =>
      if rows[i].id == sid && !rows[i].published then rows[i].(published := true) else rows[i])
  }

  function Publish(db: Db, sid: string): Option<Db> {
    if Staging(db, sid) then Some(db.(rows := MarkPublished(db.rows, sid))) else None
  }

  // ---------- transactions ----------

  /**
   One transaction. `force` also stands for a change of the identity schema, `sameInput`
   for an input-identity or semantic-digest cutoff. `raisesLate` is a failure after the
   commit of an index run, or of the certificate insert of an overlay.
   */
  datatype Plan =
    | Index(sid: string, now: int, force: bool, sameInput: bool, work: seq<Op>, raisesEarly: bool, raisesLate: bool)
    | Overlay(sid: string, now: int, base: string, receipts: seq<Receipt>, raisesLate: bool)

  datatype Outcome = Done(sid: string) | Raised

  function Stage(db: Db, sid: string, parent: Option<string>, now: int, copy: bool, work: seq<Op>): Option<Db> {
    match NewSnapshot(db, sid, parent, now)
    case None => None
    case Some(d0) =>
      match (if copy && parent.Some? then CopyPrevious(d0, sid, parent.value) else Some(d0))
      case None => None
      case Some(d1) =>
        match ApplyAll(d1, sid, work)
        case None => None
        case Some(d2) =>
          if Unsupported(d2, sid, if copy then parent else None) != {} then None
          else Publish(d2, sid)
  }

  function Receipts(rs: seq<Receipt>): (w: seq<Op>)
    ensures |w| == |rs| && forall i :: 0 <= i < |rs| ==> w[i] == AddReceipt(rs[i])
  {
    seq(|rs|, i requires 0 <= i < |rs| => AddReceipt(rs[i]))
  }

  function Transact(db: Db, p: Plan): (Db, Outcome) {
    match p
    case Index(sid, now, force, sameInput, work, raisesEarly, raisesLate) =>
      var parent := Current(db);
      var incremental := parent.Some? && !force;
      if raisesEarly then (db, Raised)
      else if incremental && sameInput then (db, if raisesLate then Raised else Done(parent.value))
      else (match Stage(db, sid, parent, now, incremental, work)
        case None => (db, Raised)
        case Some(d) => (d, if raisesLate then Raised else Done(sid)))
    case Overlay(sid, now, base, receipts, raisesLate) =>
      if Current(db) != Some(base) then (db, Raised)
      else (match Stage(db, sid, Some(base), now, true, Receipts(receipts))
        case None => (db, Raised)
        case Some(d) => if raisesLate then (db, Raised) else (d, Done(sid)))
  }

  // ---------- the store ----------

  class Store {
    var db: Db
    var committed: Db

    method NewSnapshotRow(sid: string, parent: Option<string>, now: int) returns (ok: bool)
      modifies `db
      ensures ok <==> NewSnapshot(old(db), sid, parent, now).Some?
      ensures db == if ok then NewSnapshot(old(db), sid, parent, now).value else old(db)
    {
      ok := sid !in Ids(db.rows);
      if ok {
        var prior := LastCreatedRow();
        db := db.(rows := db.rows + [Snapshot(sid, parent, false, if now >= prior + 1 then now else prior + 1)],
                  facts := db.facts[sid := map[]], receipts := db.receipts[sid := {}]);
      }
    }

    /** MAX(created_at). */
    method LastCreatedRow() returns (prior: int)
      ensures prior == LastCreated(db.rows)
    {
      if db.rows == [] { return 0; }
      prior := db.rows[0].created;
      for i := 1 to |db.rows|
        invariant prior == LastCreated(db.rows[..i])
      {
        assert db.rows[..i + 1][..i] == db.rows[..i];
        if db.rows[i].created > prior { prior := db.rows[i].created; }
      }
      assert db.rows[..|db.rows|] == db.rows;
    }

    method CurrentSnapshot() returns (sid: Option<string>)
      ensures sid == Current(db)
    {
      var best: Option<Snapshot> := None;
      for i := 0 to |db.rows|
        invariant best == CurrentRow(db.rows[..i])
      {
        assert db.rows[..i + 1][..i] == db.rows[..i];
        var row := db.rows[i];
        if row.published && (best.None? || row.created >= best.value.created) {
          best := Some(row);
        }
      }
      assert db.rows[..|db.rows|] == db.rows;
      sid := if best.None? then None else Some(best.value.id);
    }

    method DoWork(sid: string, work: seq<Op>) returns (ok: bool)
      modifies `db
      ensures ok <==> ApplyAll(old(db), sid, work).Some?
      ensures ok ==> db == ApplyAll(old(db), sid, work).value
    {
      for i := 0 to |work|
        invariant ApplyAll(old(db), sid, work[..i]) == Some(db)
      {
        assert work[..i + 1][..i] == work[..i];
        var next := Apply(db, sid, work[i]);
        if next.None? {
          RaisingStops(old(db), sid, work, i + 1);
          return false;
        }
        db := next.value;
      }
      assert work[..|work|] == work;
      ok := true;
    }

    /** Allocate, copy, fill, check and publish a snapshot; anything that raises leaves db unusable. */
    method StageAndPublish(sid: string, parent: Option<string>, now: int, copy: bool, work: seq<Op>) returns (ok: bool)
      modifies `db
      ensures ok <==> Stage(old(db), sid, parent, now, copy, work).Some?
      ensures ok ==> db == Stage(old(db), sid, parent, now, copy, work).value
    {
      hide NewSnapshot, CopyPrevious, ApplyAll, Unsupported, Publish;
      ok := NewSnapshotRow(sid, parent, now);
      if !ok { return false; }
      if copy && parent.Some? {
        var copied := CopyPrevious(db, sid, parent.value);
        if copied.None? { return false; }
        db := copied.value;
      }
      ok := DoWork(sid, work);
      if !ok { return false; }
      if Unsupported(db, sid, if copy then parent else None) != {} { return false; }
      var published := Publish(db, sid);
      if published.None? { return false; }
      db := published.value;
    }

    /** One transaction: a failure rolls every table back to the last commit. */
    method Run(p: Plan) returns (o: Outcome)
      requires db == committed
      modifies this
      ensures (db, o) == Transact(old(db), p) && db == committed
    {
      hide Stage, Current;
      var parent := CurrentSnapshot();
      var ok: bool;
      match p
      case Index(sid, now, force, sameInput, work, raisesEarly, raisesLate) =>
        var incremental := parent.Some? && !force;
        if raisesEarly { return Raised; }
        if incremental && sameInput {
          return if raisesLate then Raised else Done(parent.value);
        }
        ok := StageAndPublish(sid, parent, now, incremental, work);
        if !ok { db := committed; return Raised; }
        committed := db;
        o := if raisesLate then Raised else Done(sid);
      case Overlay(sid, now, base, receipts, raisesLate) =>
        if parent != Some(base) { return Raised; }
        ok := StageAndPublish(sid, Some(base), now, true, Receipts(receipts));
        if !ok || raisesLate { db := committed; return Raised; }
        committed := db;
        o := Done(sid);
    }
  }

  lemma {:induction false} RaisingStops(db: Db, sid: string, work: seq<Op>, n: nat)
    requires n <= |work| && ApplyAll(db, sid, work[..n]).None?
    ensures ApplyAll(db, sid, work).None?
    decreases |work| - n
  {
    if n == |work| {
      assert work[..n] == work;
    } else {
      assert work[..n + 1][..n] == work[..n];
      RaisingStops(db, sid, work, n + 1);
    }
  }

  // ---------- what every transaction keeps ----------

  /** A row chain from child to parent. */
  ghost predicate Lineage(rows: seq<Snapshot>, p: seq<nat>) {
    && p != []
    && (forall k :: 0 <= k < |p| ==> p[k] < |rows|)
    && (forall k :: 1 <= k < |p| ==> rows[p[k - 1]].parent == Some(rows[p[k]].id))
  }

  /** The fact has a receipt in this snapshot or in one of its ancestors. */
  ghost predicate HasSupport(db: Db, n: nat, f: string) {
    exists p :: Lineage(db.rows, p) && p[0] == n && f in SupportedFacts(db, db.rows[p[|p| - 1]].id)
  }

  /** Rows of a store between transactions: all published, ever newer, each parent an earlier row. */
  ghost predicate GoodRows(rows: seq<Snapshot>) {
    && (forall i, j :: 0 <= i < j < |rows| ==> rows[i].id != rows[j].id && rows[i].created < rows[j].created)
    && (forall i :: 0 <= i < |rows| ==> rows[i].published && rows[i].created > 0)
    && (forall i :: 0 <= i < |rows| && rows[i].parent.Some? ==> HasRow(rows, i, rows[i].parent.value))
  }

  ghost predicate HasRow(rows: seq<Snapshot>, n: nat, id: string) {
    exists j :: 0 <= j < n && j < |rows| && rows[j].id == id
  }

  ghost predicate AllSupported(db: Db) {
    forall n, f :: 0 <= n < |db.rows| && f in FactsOf(db, db.rows[n].id) ==> HasSupport(db, n, f)
  }

  ghost predicate Good(db: Db) {
    GoodRows(db.rows) && AllSupported(db)
  }

  /** Nothing about snapshot s differs. */
  ghost predicate SameGraph(a: Db, b: Db, s: string) {
    FactsOf(a, s) == FactsOf(b, s) && ReceiptsOf(a, s) == ReceiptsOf(b, s)
  }

  lemma {:induction false} LastRowIsCurrent(rows: seq<Snapshot>)
    requires GoodRows(rows) && rows != []
    ensures CurrentRow(rows) == Some(rows[|rows| - 1])
    ensures LastCreated(rows) == rows[|rows| - 1].created
  {
    var rest := rows[..|rows| - 1];
    if rest != [] {
      forall i | 0 <= i < |rest| && rest[i].parent.Some? ensures HasRow(rest, i, rest[i].parent.value) {
        assert HasRow(rows, i, rows[i].parent.value);
        var j :| 0 <= j < i && rows[j].id == rows[i].parent.value;
        assert rest[j].id == rest[i].parent.value;
      }
      LastRowIsCurrent(rest);
      assert rest[|rest| - 1] == rows[|rows| - 2];
    }
  }

  lemma {:induction false} CurrentIsARow(db: Db)
    requires GoodRows(db.rows)
    ensures Current(db).Some? <==> db.rows != []
    ensures db.rows != [] ==> Current(db) == Some(db.rows[|db.rows| - 1].id)
  {
    if db.rows != [] {
      LastRowIsCurrent(db.rows);
    }
  }

  /** Staging work touches only its own snapshot's facts and receipts. */
  lemma {:induction false} WorkStaysInside(db: Db, sid: string, work: seq<Op>, d: Db)
    requires ApplyAll(db, sid, work) == Some(d)
    ensures d.rows == db.rows
    ensures forall s :: s != sid ==> SameGraph(d, db, s)
  {
    if work != [] {
      var e := ApplyAll(db, sid, work[..|work| - 1]).value;
      WorkStaysInside(db, sid, work[..|work| - 1], e);
      var op := work[|work| - 1];
      assert Apply(e, sid, op) == Some(d);
      forall s | s != sid ensures SameGraph(d, db, s) {
        assert SameGraph(e, db, s);
      }
    }
  }

  lemma {:induction false} PublishingMarksTheLastRow(rows: seq<Snapshot>, staged: Snapshot)
    requires GoodRows(rows) && !staged.published && staged.id !in Ids(rows)
    ensures MarkPublished(rows + [staged], staged.id) == rows + [staged.(published := true)]
  {
    forall i | 0 <= i < |rows| ensures rows[i].id != staged.id {
      assert rows[i] in rows;
    }
  }

  /** The staging half of a transaction, up to the support check. */
  lemma {:induction false} StagedWork(
      db: Db, sid: string, parent: Option<string>, now: int, copy: bool, work: seq<Op>, d: Db)
    returns (d2: Db)
    requires Stage(db, sid, parent, now, copy, work) == Some(d)
    ensures sid !in Ids(db.rows)
    ensures d2.rows == db.rows + [Snapshot(sid, parent, false, Max(now, LastCreated(db.rows) + 1))]
    ensures forall s :: s != sid ==> SameGraph(d2, db, s)
    ensures copy && parent.Some? ==> parent.value != sid
    ensures Unsupported(d2, sid, if copy then parent else None) == {} && Publish(d2, sid) == Some(d)
  {
    hide LastCreated, ApplyAll, Unsupported, Publish;
    var d0 := NewSnapshot(db, sid, parent, now).value;
    var d1 := if copy && parent.Some? then CopyPrevious(d0, sid, parent.value).value else d0;
    assert d1.rows == d0.rows && forall s :: s != sid ==> SameGraph(d1, db, s);
    if copy && parent.Some? {
      var r :| r in d0.rows && r.id == parent.value && r.published;
    }
    d2 := ApplyAll(d1, sid, work).value;
    WorkStaysInside(d1, sid, work, d2);
    forall s | s != sid ensures SameGraph(d2, db, s) {
      assert SameGraph(d2, d1, s) && SameGraph(d1, db, s);
    }
  }

  /** Everything one staged and published snapshot changes. */
  lemma {:induction false} StageEffect(
      db: Db, sid: string, parent: Option<string>, now: int, copy: bool, work: seq<Op>, d: Db)
    requires GoodRows(db.rows) && Stage(db, sid, parent, now, copy, work) == Some(d)
    ensures sid !in Ids(db.rows)
    ensures d.rows == db.rows + [Snapshot(sid, parent, true, Max(now, LastCreated(db.rows) + 1))]
    ensures forall s :: s != sid ==> SameGraph(d, db, s)
    ensures forall f :: f in FactsOf(d, sid) ==>
      f in SupportedFacts(d, sid) || (copy && parent.Some? && parent.value != sid && f in FactsOf(db, parent.value))
  {
    hide GoodRows, LastCreated, Stage, MarkPublished;
    var d2 := StagedWork(db, sid, parent, now, copy, work, d);
    PublishingMarksTheLastRow(db.rows, d2.rows[|db.rows|]);
    forall s | s != sid ensures SameGraph(d, db, s) {
      assert SameGraph(d2, db, s);
    }
    if copy && parent.Some? {
      assert SameGraph(d2, db, parent.value);
    }
    forall f | f in FactsOf(d, sid)
      ensures f in SupportedFacts(d, sid)
                || (copy && parent.Some? && parent.value != sid && f in FactsOf(db, parent.value))
    {
      assert f !in Unsupported(d2, sid, if copy then parent else None);
      assert SupportedFacts(d, sid) == SupportedFacts(d2, sid);
    }
  }

  lemma {:induction false} SupportSurvives(db: Db, d: Db, n: nat, f: string)
    requires n < |db.rows| && HasSupport(db, n, f)
    requires db.rows <= d.rows && forall i :: 0 <= i < |db.rows| ==> SameGraph(d, db, db.rows[i].id)
    ensures HasSupport(d, n, f)
  {
    var p :| Lineage(db.rows, p) && p[0] == n && f in SupportedFacts(db, db.rows[p[|p| - 1]].id);
    assert Lineage(d.rows, p);
    assert SameGraph(d, db, db.rows[p[|p| - 1]].id);
  }

  lemma {:induction false} SupportFromParent(d: Db, n: nat, m: nat, f: string)
    requires m < n < |d.rows| && d.rows[n].parent == Some(d.rows[m].id) && HasSupport(d, m, f)
    ensures HasSupport(d, n, f)
  {
    var p :| Lineage(d.rows, p) && p[0] == m && f in SupportedFacts(d, d.rows[p[|p| - 1]].id);
    var q := [n] + p;
    assert Lineage(d.rows, q);
    assert q[|q| - 1] == p[|p| - 1];
  }

  lemma {:induction false} StageKeepsRows(db: Db, sid: string, parent: Option<string>, created: int)
    requires GoodRows(db.rows) && sid !in Ids(db.rows) && parent == Current(db)
    requires created > LastCreated(db.rows) && created > 0
    ensures GoodRows(db.rows + [Snapshot(sid, parent, true, created)])
  {
    CurrentIsARow(db);
    var rows := db.rows + [Snapshot(sid, parent, true, created)];
    forall i | 0 <= i < |db.rows| ensures db.rows[i].id != sid && db.rows[i].created < created {
      assert db.rows[i] in db.rows;
      LastRowIsCurrent(db.rows);
    }
    forall i | 0 <= i < |rows| && rows[i].parent.Some? ensures HasRow(rows, i, rows[i].parent.value) {
      if i < |db.rows| {
        RowIsStillThere(db.rows, rows, i, rows[i].parent.value);
      } else {
        assert rows[|db.rows| - 1].id == rows[i].parent.value;
      }
    }
    hide HasRow, Current, LastCreated;
  }

  lemma {:induction false} RowIsStillThere(rows: seq<Snapshot>, more: seq<Snapshot>, n: nat, id: string)
    requires HasRow(rows, n, id) && rows <= more
    ensures HasRow(more, n, id)
  {
    var j :| 0 <= j < n && j < |rows| && rows[j].id == id;
    assert more[j].id == id;
  }

  lemma {:induction false} StageKeeps(db: Db, sid: string, now: int, copy: bool, work: seq<Op>, d: Db)
    requires Good(db) && Stage(db, sid, Current(db), now, copy, work) == Some(d)
    ensures Good(d)
  {
    var parent := Current(db);
    StageEffect(db, sid, parent, now, copy, work, d);
    StageKeepsRows(db, sid, parent, Max(now, LastCreated(db.rows) + 1));
    CurrentIsARow(db);
    hide Stage, GoodRows, Current, SupportedFacts, LastCreated, HasSupport, FactsOf, SameGraph;
    forall i | 0 <= i < |db.rows| ensures SameGraph(d, db, db.rows[i].id) {
      assert db.rows[i] in db.rows;
    }
    forall n, f | 0 <= n < |d.rows| && f in FactsOf(d, d.rows[n].id) ensures HasSupport(d, n, f) {
      StagedFactIsSupported(db, sid, copy, d, n, f);
    }
  }

  lemma {:induction false} StagedFactIsSupported(db: Db, sid: string, copy: bool, d: Db, n: nat, f: string)
    requires AllSupported(db) && n < |d.rows| == |db.rows| + 1 && db.rows <= d.rows
    requires forall i :: 0 <= i < |db.rows| ==> SameGraph(d, db, db.rows[i].id)
    requires f in FactsOf(d, d.rows[n].id)
    requires var last := d.rows[|db.rows|];
      && last.id == sid
      && (db.rows != [] ==> last.parent == Some(db.rows[|db.rows| - 1].id))
      && (f in FactsOf(d, sid) ==>
            f in SupportedFacts(d, sid) || (last.parent.Some? && db.rows != [] && f in FactsOf(db, last.parent.value)))
    ensures HasSupport(d, n, f)
  {
    hide HasSupport, SupportedFacts;
    if n < |db.rows| {
      assert SameGraph(d, db, db.rows[n].id);
      assert HasSupport(db, n, f);
      SupportSurvives(db, d, n, f);
    } else if f in SupportedFacts(d, sid) {
      OwnSupport(d, n, f);
    } else {
      var m := |db.rows| - 1;
      assert f in FactsOf(db, db.rows[m].id);
      assert HasSupport(db, m, f);
      SupportSurvives(db, d, m, f);
      SupportFromParent(d, n, m, f);
    }
  }

  lemma {:induction false} OwnSupport(d: Db, n: nat, f: string)
    requires n < |d.rows| && f in SupportedFacts(d, d.rows[n].id)
    ensures HasSupport(d, n, f)
  {
    assert Lineage(d.rows, [n]);
  }

  /** Every published fact stays supported, whatever the transaction did or how it ended. */
  lemma {:induction false} TransactKeeps(db: Db, p: Plan)
    requires Good(db)
    ensures Good(Transact(db, p).0)
  {
    hide Stage, GoodRows, AllSupported, Current;
    var parent := Current(db);
    match p
    case Index(sid, now, force, same, work, early, late) =>
      var staged := Stage(db, sid, parent, now, parent.Some? && !force, work);
      if staged.Some? {
        StageKeeps(db, sid, now, parent.Some? && !force, work, staged.value);
      }
    case Overlay(sid, now, base, receipts, late) =>
      if parent == Some(base) {
        var staged := Stage(db, sid, parent, now, true, Receipts(receipts));
        if staged.Some? {
          StageKeeps(db, sid, now, true, Receipts(receipts), staged.value);
        }
      }
  }

  const EMPTY := Db([], map[], map[])

  ghost function After(plans: seq<Plan>): Db {
    if plans == [] then EMPTY else Transact(After(plans[..|plans| - 1]), plans[|plans| - 1]).0
  }

  /** From an empty store on, over successes and failures alike. */
  lemma {:induction false} EveryPublishedFactIsSupported(plans: seq<Plan>)
    ensures Good(After(plans))
  {
    hide Transact;
    if plans != [] {
      EveryPublishedFactIsSupported(plans[..|plans| - 1]);
      TransactKeeps(After(plans[..|plans| - 1]), plans[|plans| - 1]);
    }
  }

  /** The transaction reached its commit and published its own snapshot. */
  predicate Publishes(db: Db, p: Plan) {
    match p
    case Index(sid, now, force, sameInput, work, early, late) =>
      var copy := Current(db).Some? && !force;
      !early && !(copy && sameInput) && Stage(db, sid, Current(db), now, copy, work).Some?
    case Overlay(sid, now, base, receipts, late) =>
      Current(db) == Some(base) && Stage(db, sid, Some(base), now, true, Receipts(receipts)).Some? && !late
  }

  /**
   A publishing transaction makes its snapshot current, whatever its clock says; any other
   leaves all tables alone.
   */
  lemma {:induction false} PublishedIsCurrent(db: Db, p: Plan)
    requires Good(db)
    ensures Publishes(db, p) ==>
      Current(Transact(db, p).0) == Some(p.sid) && Current(db) != Some(p.sid)
    ensures !Publishes(db, p) ==> Transact(db, p).0 == db
  {
    if Publishes(db, p) {
      var d := Transact(db, p).0;
      TransactKeeps(db, p);
      var copy := p.Overlay? || (Current(db).Some? && !p.force);
      var work := if p.Overlay? then Receipts(p.receipts) else p.work;
      hide Stage, AllSupported, GoodRows;
      StageEffect(db, p.sid, Current(db), p.now, copy, work, d);
      CurrentIsARow(d);
      CurrentIsARow(db);
      if db.rows != [] {
        assert db.rows[|db.rows| - 1] in db.rows;
      }
    }
  }

  /** What an index run's work starts from: its own row, and the parent's graph if it is incremental. */
  function StagingGraph(db: Db, p: Plan): Db
    requires p.Index?
  {
    var parent := Current(db);
    var copy := parent.Some? && !p.force;
    Db(
      db.rows + [Snapshot(p.sid, parent, false, Max(p.now, LastCreated(db.rows) + 1))],
      db.facts[p.sid := if copy then FactsOf(db, parent.value) else map[]],
      db.receipts[p.sid := if copy then ReceiptsOf(db, parent.value) else {}])
  }

  /**
   Nothing fails early, the input changed, the id is new, and all the work goes through and
   leaves every fact with a receipt or with a place in the copied graph.
   */
  predicate ReachesCommit(db: Db, p: Plan)
    requires p.Index?
  {
    var incremental := Current(db).Some? && !p.force;
    && !p.raisesEarly && !(incremental && p.sameInput) && p.sid !in Ids(db.rows)
    && match ApplyAll(StagingGraph(db, p), p.sid, p.work)
       case None => false
       case Some(d) =>
         forall f :: f in FactsOf(d, p.sid) ==>
           f in SupportedFacts(d, p.sid) || (incremental && f in FactsOf(db, Current(db).value))
  }

  /** What the support check and the publication make of the staged work. */
  function Finish(d1: Db, sid: string, parent: Option<string>, work: seq<Op>): Option<Db> {
    match ApplyAll(d1, sid, work)
    case None => None
    case Some(d2) => if Unsupported(d2, sid, parent) != {} then None else Publish(d2, sid)
  }

  lemma {:induction false} ParentIsPublished(db: Db, sid: string)
    requires Good(db) && sid !in Ids(db.rows) && Current(db).Some?
    ensures Current(db).value != sid
    ensures exists r :: r in db.rows && r.id == Current(db).value && r.published
  {
    CurrentIsARow(db);
    assert db.rows[|db.rows| - 1] in db.rows;
  }

  lemma {:induction false} FreshSnapshot(db: Db, sid: string, parent: Option<string>, now: int) returns (d0: Db)
    requires sid !in Ids(db.rows)
    ensures NewSnapshot(db, sid, parent, now) == Some(d0) && Staging(d0, sid)
    ensures d0 == Db(db.rows + [Snapshot(sid, parent, false, Max(now, LastCreated(db.rows) + 1))],
                     db.facts[sid := map[]], db.receipts[sid := {}])
  {
    hide LastCreated;
    d0 := NewSnapshot(db, sid, parent, now).value;
    assert d0.rows[|db.rows|] in d0.rows;
  }

  lemma {:induction false} CopiedSnapshot(db: Db, d0: Db, sid: string, parent: string)
    requires Staging(d0, sid) && parent != sid && db.rows <= d0.rows
    requires d0.facts == db.facts[sid := map[]] && d0.receipts == db.receipts[sid := {}]
    requires exists r :: r in db.rows && r.id == parent && r.published
    ensures CopyPrevious(d0, sid, parent)
            == Some(Db(d0.rows, db.facts[sid := FactsOf(db, parent)], db.receipts[sid := ReceiptsOf(db, parent)]))
  {
    var r :| r in db.rows && r.id == parent && r.published;
    assert r in d0.rows;
    assert FactsOf(d0, sid) + FactsOf(d0, parent) == FactsOf(db, parent);
    assert ReceiptsOf(d0, sid) + ReceiptsOf(d0, parent) == ReceiptsOf(db, parent);
    assert d0.facts[sid := FactsOf(db, parent)] == db.facts[sid := FactsOf(db, parent)];
    assert d0.receipts[sid := ReceiptsOf(db, parent)] == db.receipts[sid := ReceiptsOf(db, parent)];
  }

  /** An index run stages the starting graph, does its work on it and finishes it. */
  lemma {:induction false} StagingStarts(db: Db, p: Plan)
    requires Good(db) && p.Index? && p.sid !in Ids(db.rows)
    ensures var parent, d1 := if p.force then None else Current(db), StagingGraph(db, p);
      && Staging(d1, p.sid)
      && FactsOf(d1, p.sid) == (if parent.Some? then FactsOf(db, parent.value) else map[])
      && Stage(db, p.sid, Current(db), p.now, Current(db).Some? && !p.force, p.work)
         == Finish(d1, p.sid, parent, p.work)
    ensures Current(db).Some? ==>
      Current(db).value != p.sid && SameGraph(StagingGraph(db, p), db, Current(db).value)
  {
    if Current(db).Some? {
      ParentIsPublished(db, p.sid);
    }
    hide Current, Good, LastCreated, Staging, Stage, Finish;
    StartsStaged(db, p);
  }

  lemma {:induction false} StartsStaged(db: Db, p: Plan)
    requires p.Index? && p.sid !in Ids(db.rows)
    requires Current(db).Some? ==>
      Current(db).value != p.sid && exists r :: r in db.rows && r.id == Current(db).value && r.published
    ensures Staging(StagingGraph(db, p), p.sid)
    ensures Stage(db, p.sid, Current(db), p.now, Current(db).Some? && !p.force, p.work)
            == Finish(StagingGraph(db, p), p.sid, if p.force then None else Current(db), p.work)
  {
    var parent := Current(db);
    hide NewSnapshot, CopyPrevious, ApplyAll, Unsupported, Publish, Current, LastCreated, Staging, FactsOf, ReceiptsOf;
    var d0 := FreshSnapshot(db, p.sid, parent, p.now);
    if parent.Some? && !p.force {
      CopiedSnapshot(db, d0, p.sid, parent.value);
    }
    StagingStays(d0, StagingGraph(db, p), p.sid);
  }

  /** An overlay that raises leaves no trace. */
  lemma {:induction false} RaisedOverlayIsUndone(db: Db, p: Plan)
    requires p.Overlay? && Transact(db, p).1.Raised?
    ensures Transact(db, p).0 == db
  {
    hide Stage, Current;
  }

  lemma {:induction false} StagingStays(db: Db, d: Db, sid: string)
    requires Staging(db, sid) && d.rows == db.rows
    ensures Staging(d, sid)
  {
  }

  lemma {:induction false} SupportCheck(db: Db, sid: string, parent: Option<string>)
    ensures Unsupported(db, sid, parent) == {} <==>
            forall f :: f in FactsOf(db, sid) ==>
              f in SupportedFacts(db, sid) || (parent.Some? && f in FactsOf(db, parent.value))
  {
    var bare := Unsupported(db, sid, parent);
    if bare == {} {
      assert forall f :: f in FactsOf(db, sid) ==> f !in bare;
    }
  }

  /** An index run publishes exactly when its plan lets it reach the commit. */
  lemma {:induction false} PublishesIffReachesCommit(db: Db, p: Plan)
    requires Good(db) && p.Index?
    ensures Publishes(db, p) <==> ReachesCommit(db, p)
  {
    if p.sid !in Ids(db.rows) {
      StagingStarts(db, p);
      hide Current, StagingGraph, Stage, ApplyAll, Staging, Good;
      var d1, parent := StagingGraph(db, p), Current(db);
      if ApplyAll(d1, p.sid, p.work).Some? {
        var d := ApplyAll(d1, p.sid, p.work).value;
        WorkStaysInside(d1, p.sid, p.work, d);
        StagingStays(d1, d, p.sid);
        assert parent.Some? ==> SameGraph(d, d1, parent.value);
        SupportCheck(d, p.sid, if p.force then None else parent);
      }
    } else {
      assert NewSnapshot(db, p.sid, Current(db), p.now).None?;
    }
  }

  /** A run that raises leaves the current snapshot alone unless it is an index run that raises after its commit. */
  lemma {:induction false} FailureKeepsCurrentIff(db: Db, p: Plan)
    requires Good(db) && Transact(db, p).1.Raised?
    ensures Current(Transact(db, p).0) == Current(db) <==> !(p.Index? && p.raisesLate && ReachesCommit(db, p))
    ensures !(p.Index? && p.raisesLate && ReachesCommit(db, p)) ==> Transact(db, p).0 == db
  {
    PublishedIsCurrent(db, p);
    if p.Index? {
      PublishesIffReachesCommit(db, p);
    }
    hide Stage, Current, Good, ReachesCommit;
  }

  /** Published snapshots are frozen: no later transaction changes their row, facts or receipts. */
  lemma {:induction false} PublishedIsFrozen(db: Db, p: Plan)
    requires Good(db)
    ensures db.rows <= Transact(db, p).0.rows
    ensures forall i :: 0 <= i < |db.rows| ==> SameGraph(Transact(db, p).0, db, db.rows[i].id)
  {
    PublishedIsCurrent(db, p);
    if Publishes(db, p) {
      var copy := p.Overlay? || (Current(db).Some? && !p.force);
      var work := if p.Overlay? then Receipts(p.receipts) else p.work;
      var d := Transact(db, p).0;
      hide Stage, AllSupported, GoodRows;
      StageEffect(db, p.sid, Current(db), p.now, copy, work, d);
      forall i | 0 <= i < |db.rows| ensures SameGraph(d, db, db.rows[i].id) {
        assert db.rows[i] in db.rows;
      }
    }
  }

  lemma {:induction false} ReceiptsLeaveFacts(db: Db, sid: string, rs: seq<Receipt>, d: Db)
    requires ApplyAll(db, sid, Receipts(rs)) == Some(d)
    ensures d.facts == db.facts
    ensures forall r :: r in ReceiptsOf(d, sid) <==> r in ReceiptsOf(db, sid) || r in rs
    decreases |rs|
  {
    if rs != [] {
      var less := rs[..|rs| - 1];
      assert Receipts(rs)[..|rs| - 1] == Receipts(less);
      var e := ApplyAll(db, sid, Receipts(less)).value;
      ReceiptsLeaveFacts(db, sid, less, e);
      assert rs == less + [rs[|rs| - 1]];
    }
  }

  /** A support overlay is an exact copy of its base graph with more receipts. */
  lemma {:induction false} OverlayCopiesTheGraph(db: Db, p: Plan)
    requires Good(db) && p.Overlay? && Transact(db, p).1.Done?
    ensures FactsOf(Transact(db, p).0, p.sid) == FactsOf(db, p.base)
    ensures forall r :: r in ReceiptsOf(Transact(db, p).0, p.sid) <==> r in ReceiptsOf(db, p.base) || r in p.receipts
  {
    CurrentIsARow(db);
    assert db.rows[|db.rows| - 1] in db.rows;
    hide Current, Good;
    var d := Transact(db, p).0;
    assert Stage(db, p.sid, Some(p.base), p.now, true, Receipts(p.receipts)) == Some(d);
    OverlayStage(db, p.sid, p.base, p.now, p.receipts, d);
  }

  lemma {:induction false} OverlayStage(db: Db, sid: string, base: string, now: int, rs: seq<Receipt>, d: Db)
    requires base in Ids(db.rows) && Stage(db, sid, Some(base), now, true, Receipts(rs)) == Some(d)
    ensures FactsOf(d, sid) == FactsOf(db, base)
    ensures forall r :: r in ReceiptsOf(d, sid) <==> r in ReceiptsOf(db, base) || r in rs
  {
    hide ApplyAll, Unsupported, LastCreated, MarkPublished;
    assert base != sid;
    var d0 := NewSnapshot(db, sid, Some(base), now).value;
    var d1 := CopyPrevious(d0, sid, base).value;
    var d2 := ApplyAll(d1, sid, Receipts(rs)).value;
    ReceiptsLeaveFacts(d1, sid, rs, d2);
    assert FactsOf(d1, sid) == FactsOf(db, base);
    assert ReceiptsOf(d1, sid) == {} + ReceiptsOf(db, base) == ReceiptsOf(db, base);
    assert ReceiptsOf(d, sid) == ReceiptsOf(d2, sid);
  }

  lemma {:induction false} ReceiptsGoIn(db: Db, sid: string, rs: seq<Receipt>)
    requires Staging(db, sid)
    requires forall r :: r in rs ==> r.fact in FactsOf(db, sid) && FactsOf(db, sid)[r.fact].kind == r.kind
    ensures ApplyAll(db, sid, Receipts(rs)).Some?
    decreases |rs|
  {
    if rs != [] {
      var less := rs[..|rs| - 1];
      assert Receipts(rs)[..|rs| - 1] == Receipts(less);
      ReceiptsGoIn(db, sid, less);
      var e := ApplyAll(db, sid, Receipts(less)).value;
      ReceiptsLeaveFacts(db, sid, less, e);
      WorkStaysInside(db, sid, Receipts(less), e);
      StagingStays(db, e, sid);
      assert rs[|rs| - 1] in rs;
      hide Staging;
    }
  }

  /** An overlay on the current snapshot whose receipts name facts of its graph is never refused. */
  lemma {:induction false} OverlayPublishes(db: Db, p: Plan)
    requires Good(db) && p.Overlay? && Current(db) == Some(p.base) && p.sid !in Ids(db.rows) && !p.raisesLate
    requires forall r :: r in p.receipts ==>
      r.fact in FactsOf(db, p.base) && FactsOf(db, p.base)[r.fact].kind == r.kind
    ensures Transact(db, p).1 == Done(p.sid)
  {
    ParentIsPublished(db, p.sid);
    hide Current, Good, FactsOf, Receipts;
    OverlayStages(db, p.sid, p.base, p.now, p.receipts);
    hide Stage;
  }

  lemma {:induction false} OverlayStages(db: Db, sid: string, base: string, now: int, rs: seq<Receipt>)
    requires sid !in Ids(db.rows) && base != sid && exists r :: r in db.rows && r.id == base && r.published
    requires forall r :: r in rs ==> r.fact in FactsOf(db, base) && FactsOf(db, base)[r.fact].kind == r.kind
    ensures Stage(db, sid, Some(base), now, true, Receipts(rs)).Some?
  {
    var d0 := FreshSnapshot(db, sid, Some(base), now);
    hide NewSnapshot, LastCreated;
    CopiedSnapshot(db, d0, sid, base);
    hide CopyPrevious;
    var d1 := Db(d0.rows, db.facts[sid := FactsOf(db, base)], db.receipts[sid := ReceiptsOf(db, base)]);
    StagingStays(d0, d1, sid);
    hide Staging, ApplyAll, Unsupported, Receipts;
    OverlayIsSupported(d1, sid, base, rs);
  }

  /** Receipts on an exact copy go in, and its support check passes. */
  lemma {:induction false} OverlayIsSupported(db: Db, sid: string, base: string, rs: seq<Receipt>)
    requires Staging(db, sid) && base != sid && FactsOf(db, sid) == FactsOf(db, base)
    requires forall r :: r in rs ==> r.fact in FactsOf(db, sid) && FactsOf(db, sid)[r.fact].kind == r.kind
    ensures ApplyAll(db, sid, Receipts(rs)).Some?
    ensures Staging(ApplyAll(db, sid, Receipts(rs)).value, sid)
    ensures Unsupported(ApplyAll(db, sid, Receipts(rs)).value, sid, Some(base)) == {}
  {
    ReceiptsGoIn(db, sid, rs);
    var d := ApplyAll(db, sid, Receipts(rs)).value;
    ReceiptsLeaveFacts(db, sid, rs, d);
    WorkStaysInside(db, sid, Receipts(rs), d);
    StagingStays(db, d, sid);
    hide Staging, ApplyAll, Receipts;
    assert FactsOf(d, sid) == FactsOf(d, base);
  }

  /** A fact the parent does not have is published only with a receipt of its own. */
  lemma {:induction false} NewFactsCarryReceipts(db: Db, p: Plan, f: string)
    requires Good(db) && Publishes(db, p)
    requires f in FactsOf(Transact(db, p).0, p.sid)
    requires Current(db).None? || (p.Index? && p.force) || f !in FactsOf(db, Current(db).value)
    ensures f in SupportedFacts(Transact(db, p).0, p.sid)
  {
    var copy := p.Overlay? || (Current(db).Some? && !p.force);
    var work := if p.Overlay? then Receipts(p.receipts) else p.work;
    StageEffect(db, p.sid, Current(db), p.now, copy, work, Transact(db, p).0);
  }
}
