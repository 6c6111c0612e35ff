/**
 Which published facts carry a receipt of their own: the exact condition on the work
 of a run, what it means for the work an incremental index run does, and a run that
 publishes an edge whose only receipt lies in the parent snapshot.
 */
module SnapshotSupport {
  import opened Prelude
  import opened SnapshotStore

  /** Every fact of the snapshot has a receipt in that same snapshot. */
  predicate OwnSupport(db: Db, sid: string) {
    FactsOf(db, sid).Keys <= SupportedFacts(db, sid)
  }

  function ReceiptsFor(db: Db, sid: string, f: string): set<Receipt> {
    set r | r in ReceiptsOf(db, sid) && r.fact == f
  }

  function OwnedOutside(rs: set<Receipt>, owners: set<string>): set<Receipt> {
    set r | r in rs && r.owner !in owners
  }

  // ---------- one fact followed through the work of a run ----------

  predicate PresentAfter(was: bool, op: Op, f: string) {
    match op
    case PutNode(id, _) => was || id == f
    case PutEdge(k, a, b) => was || EdgeId(k, a, b) == f
    case DropFacts(fs) => was && f !in fs
    case _ => was
  }

  function VouchersAfter(was: bool, rs: set<Receipt>, op: Op, f: string): set<Receipt> {
    match op
    case AddReceipt(r) => if r.fact == f then rs + {r} else rs
    case DropReceipts(owners) => OwnedOutside(rs, owners)
    case Prune => if was then rs else {}
    case _ => rs
  }

  /** Whether the fact is there after the work, given whether it was there before. */
  predicate Present(was: bool, work: seq<Op>, f: string) {
    if work == [] then was else PresentAfter(Present(was, work[..|work| - 1], f), work[|work| - 1], f)
  }

  /** The receipts of the fact after the work, given those it had before. */
  function Vouchers(was: bool, rs: set<Receipt>, work: seq<Op>, f: string): set<Receipt> {
    if work == [] then rs
    else
      var before := work[..|work| - 1];
      VouchersAfter(Present(was, before, f), Vouchers(was, rs, before, f), work[|work| - 1], f)
  }

  lemma {:induction false} OpTracksFact(db: Db, sid: string, op: Op, d: Db, f: string)
    requires Apply(db, sid, op) == Some(d)
    ensures f in FactsOf(d, sid) <==> PresentAfter(f in FactsOf(db, sid), op, f)
    ensures ReceiptsFor(d, sid, f) == VouchersAfter(f in FactsOf(db, sid), ReceiptsFor(db, sid, f), op, f)
  {
  }

  lemma {:induction false} WorkTracksFact(db: Db, sid: string, work: seq<Op>, d: Db, f: string)
    requires ApplyAll(db, sid, work) == Some(d)
    ensures f in FactsOf(d, sid) <==> Present(f in FactsOf(db, sid), work, f)
    ensures ReceiptsFor(d, sid, f) == Vouchers(f in FactsOf(db, sid), ReceiptsFor(db, sid, f), work, f)
    decreases |work|
  {
    hide Apply, PresentAfter, VouchersAfter, ReceiptsFor, FactsOf;
    if work != [] {
      var e := ApplyAll(db, sid, work[..|work| - 1]).value;
      WorkTracksFact(db, sid, work[..|work| - 1], e, f);
      OpTracksFact(e, sid, work[|work| - 1], d, f);
    }
  }

  lemma {:induction false} ReceiptsForAreSupport(db: Db, sid: string, f: string)
    ensures f in SupportedFacts(db, sid) <==> ReceiptsFor(db, sid, f) != {}
  {
    if f in SupportedFacts(db, sid) {
      var r :| r in ReceiptsOf(db, sid) && r.fact == f;
      assert r in ReceiptsFor(db, sid, f);
    }
    if ReceiptsFor(db, sid, f) != {} {
      var r :| r in ReceiptsFor(db, sid, f);
      assert r.fact in SupportedFacts(db, sid);
    }
  }

  // ---------- the exact condition ----------

  predicate Copies(db: Db, p: Plan) {
    Current(db).Some? && (p.Overlay? || !p.force)
  }

  function WorkOf(p: Plan): seq<Op> {
    if p.Overlay? then Receipts(p.receipts) else p.work
  }

  /** The work leaves no parent fact whose last receipt it dropped and did not replace. */
  ghost predicate LeavesNoneBare(db: Db, parent: string, work: seq<Op>) {
    forall f :: f in FactsOf(db, parent) && Present(true, work, f) ==>
      Vouchers(true, ReceiptsFor(db, parent, f), work, f) != {}
  }

  lemma {:induction false} StagedFrom(
      db: Db, sid: string, parent: Option<string>, now: int, copy: bool, work: seq<Op>, d: Db)
    returns (d1: Db, d2: Db)
    requires Stage(db, sid, parent, now, copy, work) == Some(d) && (parent.Some? ==> parent.value != sid)
    ensures ApplyAll(d1, sid, work) == Some(d2) && SameGraph(d, d2, sid)
    ensures copy && parent.Some? ==>
              FactsOf(d1, sid) == FactsOf(db, parent.value) && ReceiptsOf(d1, sid) == ReceiptsOf(db, parent.value)
    ensures !(copy && parent.Some?) ==> FactsOf(d1, sid) == map[] && ReceiptsOf(d1, sid) == {}
  {
    hide ApplyAll, Unsupported, LastCreated, MarkPublished;
    var d0 := NewSnapshot(db, sid, parent, now).value;
    d1 := if copy && parent.Some? then CopyPrevious(d0, sid, parent.value).value else d0;
    d2 := ApplyAll(d1, sid, work).value;
  }

  /** A published snapshot starts from its parent's facts and receipts, or from none. */
  lemma {:induction false} PublishedByWork(db: Db, p: Plan) returns (d1: Db, d2: Db)
    requires Good(db) && Publishes(db, p)
    ensures ApplyAll(d1, p.sid, WorkOf(p)) == Some(d2)
    ensures SameGraph(Transact(db, p).0, d2, p.sid)
    ensures Copies(db, p) ==> FactsOf(d1, p.sid) == FactsOf(db, Current(db).value)
    ensures Copies(db, p) ==> ReceiptsOf(d1, p.sid) == ReceiptsOf(db, Current(db).value)
    ensures !Copies(db, p) ==> FactsOf(d1, p.sid) == map[] && ReceiptsOf(d1, p.sid) == {}
  {
    var copy, d := p.Overlay? || (Current(db).Some? && !p.force), Transact(db, p).0;
    PublishedIsCurrent(db, p);
    hide Good, Stage, Current;
    assert Stage(db, p.sid, Current(db), p.now, copy, WorkOf(p)) == Some(d);
    d1, d2 := StagedFrom(db, p.sid, Current(db), p.now, copy, WorkOf(p), d);
  }

  /** A published snapshot supports all its facts itself exactly when the work leaves no parent fact bare. */
  lemma {:induction false} OwnSupportIff(db: Db, p: Plan)
    requires Good(db) && Publishes(db, p)
    ensures OwnSupport(Transact(db, p).0, p.sid) <==>
            (Copies(db, p) ==> LeavesNoneBare(db, Current(db).value, WorkOf(p)))
  {
    var d1, d2 := PublishedByWork(db, p);
    var d := Transact(db, p).0;
    hide Transact, Good, Publishes, Current, Present, Vouchers, FactsOf, ReceiptsOf, SupportedFacts;
    forall f ensures f in FactsOf(d, p.sid) <==> Present(f in FactsOf(d1, p.sid), WorkOf(p), f)
      ensures f in SupportedFacts(d, p.sid) <==>
              Vouchers(f in FactsOf(d1, p.sid), ReceiptsFor(d1, p.sid, f), WorkOf(p), f) != {}
      ensures Copies(db, p) ==> ReceiptsFor(d1, p.sid, f) == ReceiptsFor(db, Current(db).value, f)
      ensures f in FactsOf(d, p.sid) && !(Copies(db, p) && f in FactsOf(db, Current(db).value)) ==>
                f in SupportedFacts(d, p.sid)
    {
      WorkTracksFact(d1, p.sid, WorkOf(p), d2, f);
      ReceiptsForAreSupport(d, p.sid, f);
      if f in FactsOf(d, p.sid) && !(Copies(db, p) && f in FactsOf(db, Current(db).value)) {
        NewFactsCarryReceipts(db, p, f);
      }
    }
  }

  // ---------- the work of an index run ----------

  /** A fact written together with the receipt of its admission. */
  datatype Claim = Claim(id: string, fact: Fact, receipt: Receipt)

  predicate Honest(c: Claim) {
    && c.receipt.fact == c.id && c.receipt.kind == c.fact.kind
    && (c.fact.Edge? ==> c.id == EdgeId(c.fact.kind, c.fact.source, c.fact.target))
  }

  function Put(c: Claim): Op {
    match c.fact
    case Node(_, _, _, _, _) => PutNode(c.id, c.fact)
    case Edge(kind, source, target) => PutEdge(kind, source, target)
  }

  function Ops(cs: seq<Claim>): seq<Op> {
    if cs == [] then []
    else
      var c := cs[|cs| - 1];
      Ops(cs[..|cs| - 1]) + [Put(c), AddReceipt(c.receipt)]
  }

  /** What an incremental run found: the files it redid, and the facts it parsed and then resolved. */
  datatype Delta = Delta(
    paths: set<string>, owners: set<string>, parsed: seq<Claim>, keep: set<string>, resolved: seq<Claim>)

  ghost predicate AllHonest(delta: Delta) {
    && (forall i :: 0 <= i < |delta.parsed| ==> Honest(delta.parsed[i]))
    && (forall i :: 0 <= i < |delta.resolved| ==> Honest(delta.resolved[i]))
  }

  function NodesIn(facts: map<string, Fact>, paths: set<string>): set<string> {
    set id | id in facts && facts[id].Node? && facts[id].path in paths
  }

  function EdgesFrom(facts: map<string, Fact>, paths: set<string>): set<string> {
    set id | id in facts && facts[id].Edge? && facts[id].source in NodesIn(facts, paths)
  }

  function Stored(facts: map<string, Fact>, cs: seq<Claim>): map<string, Fact> {
    if cs == [] then facts
    else
      var before, c := Stored(facts, cs[..|cs| - 1]), cs[|cs| - 1];
      if c.fact.Edge? && c.id in before then before else before[c.id := c.fact]
  }

  /** Nodes of the redone files that were not found again. */
  function Vanished(facts: map<string, Fact>, delta: Delta): set<string> {
    NodesIn(Stored(facts - EdgesFrom(facts, delta.paths), delta.parsed), delta.paths) - delta.keep
  }

  function DeltaWork(facts: map<string, Fact>, delta: Delta): seq<Op> {
    [DropReceipts(delta.owners), DropFacts(EdgesFrom(facts, delta.paths))]
    + (Ops(delta.parsed) + ([DropFacts(Vanished(facts, delta))] + (Ops(delta.resolved) + [Prune])))
  }

  predicate Attested(cs: seq<Claim>, f: string) {
    exists i :: 0 <= i < |cs| && cs[i].receipt.fact == f
  }

  function ReceiptsIn(cs: seq<Claim>, f: string): set<Receipt> {
    set i | 0 <= i < |cs| && cs[i].receipt.fact == f :: cs[i].receipt
  }

  lemma {:induction false} FollowedAppend(was: bool, rs: set<Receipt>, a: seq<Op>, b: seq<Op>, f: string)
    ensures Present(was, a + b, f) == Present(Present(was, a, f), b, f)
    ensures Vouchers(was, rs, a + b, f) == Vouchers(Present(was, a, f), Vouchers(was, rs, a, f), b, f)
    decreases |b|
  {
    if b == [] {
      assert a + b == a;
    } else {
      var n := |b| - 1;
      assert (a + b)[..|a + b| - 1] == a + b[..n];
      FollowedAppend(was, rs, a, b[..n], f);
    }
  }

  lemma {:induction false} FollowedOp(was: bool, rs: set<Receipt>, op: Op, f: string)
    ensures Present(was, [op], f) == PresentAfter(was, op, f)
    ensures Vouchers(was, rs, [op], f) == VouchersAfter(was, rs, op, f)
  {
    assert [op][..0] == [];
  }

  /** Claims add facts and receipts, and take nothing away. */
  lemma {:induction false} FollowedClaims(was: bool, rs: set<Receipt>, cs: seq<Claim>, f: string)
    requires forall i :: 0 <= i < |cs| ==> Honest(cs[i])
    ensures Present(was, Ops(cs), f) == (was || Attested(cs, f))
    ensures Vouchers(was, rs, Ops(cs), f) == rs + ReceiptsIn(cs, f)
    decreases |cs|
  {
    if cs != [] {
      var n := |cs| - 1;
      var c, head := cs[n], Ops(cs[..n]);
      assert Honest(c);
      FollowedClaims(was, rs, cs[..n], f);
      var mid, vouched := Present(was, head, f), Vouchers(was, rs, head, f);
      FollowedAppend(was, rs, head, [Put(c), AddReceipt(c.receipt)], f);
      FollowedAppend(mid, vouched, [Put(c)], [AddReceipt(c.receipt)], f);
      FollowedOp(mid, vouched, Put(c), f);
      FollowedOp(Present(mid, [Put(c)], f), vouched, AddReceipt(c.receipt), f);
      assert [Put(c)] + [AddReceipt(c.receipt)] == [Put(c), AddReceipt(c.receipt)];
      AttestedStep(cs, f);
    }
  }

  lemma {:induction false} AttestedStep(cs: seq<Claim>, f: string)
    requires cs != []
    ensures var n := |cs| - 1;
            && (Attested(cs, f) <==> Attested(cs[..n], f) || cs[n].receipt.fact == f)
            && ReceiptsIn(cs, f) == ReceiptsIn(cs[..n], f) + (if cs[n].receipt.fact == f then {cs[n].receipt} else {})
  {
    var n := |cs| - 1;
    assert forall i :: 0 <= i < n ==> cs[..n][i] == cs[i];
    forall r | r in ReceiptsIn(cs, f)
      ensures r in ReceiptsIn(cs[..n], f) + (if cs[n].receipt.fact == f then {cs[n].receipt} else {})
    {
      var i :| 0 <= i < |cs| && cs[i].receipt.fact == f && cs[i].receipt == r;
      assert i < n ==> cs[..n][i].receipt == r;
    }
    forall r | r in ReceiptsIn(cs[..n], f) ensures r in ReceiptsIn(cs, f) {
      var i :| 0 <= i < n && cs[..n][i].receipt.fact == f && cs[..n][i].receipt == r;
      assert cs[i].receipt == r;
    }
  }

  /** What an incremental run leaves of one fact. */
  lemma {:induction false} FollowedDelta(was: bool, rs: set<Receipt>, facts: map<string, Fact>, delta: Delta, f: string)
    requires AllHonest(delta)
    ensures var work := DeltaWork(facts, delta);
            && (Present(was, work, f) <==>
                || Attested(delta.resolved, f)
                || (((was && f !in EdgesFrom(facts, delta.paths)) || Attested(delta.parsed, f))
                    && f !in Vanished(facts, delta)))
            && (Present(was, work, f) ==>
                  Vouchers(was, rs, work, f) ==
                  OwnedOutside(rs, delta.owners) + ReceiptsIn(delta.parsed, f) + ReceiptsIn(delta.resolved, f))
  {
    hide Present, Vouchers, EdgesFrom, Vanished, Ops, Attested, ReceiptsIn, OwnedOutside;
    var e, v := EdgesFrom(facts, delta.paths), Vanished(facts, delta);
    var rs1 := OwnedOutside(rs, delta.owners);
    var drops, tail2 := [DropReceipts(delta.owners), DropFacts(e)], Ops(delta.resolved) + [Prune];
    var tail1 := [DropFacts(v)] + tail2;
    assert [DropReceipts(delta.owners)] + [DropFacts(e)] == drops;
    FollowedAppend(was, rs, [DropReceipts(delta.owners)], [DropFacts(e)], f);
    FollowedOp(was, rs, DropReceipts(delta.owners), f);
    FollowedOp(was, rs1, DropFacts(e), f);
    FollowedAppend(was, rs, drops, Ops(delta.parsed) + tail1, f);
    var p1 := Present(was, drops, f);
    FollowedAppend(p1, rs1, Ops(delta.parsed), tail1, f);
    FollowedClaims(p1, rs1, delta.parsed, f);
    var p2, rs2 := p1 || Attested(delta.parsed, f), rs1 + ReceiptsIn(delta.parsed, f);
    FollowedAppend(p2, rs2, [DropFacts(v)], tail2, f);
    FollowedOp(p2, rs2, DropFacts(v), f);
    var p3 := p2 && f !in v;
    FollowedAppend(p3, rs2, Ops(delta.resolved), [Prune], f);
    FollowedClaims(p3, rs2, delta.resolved, f);
    FollowedOp(p3 || Attested(delta.resolved, f), rs2 + ReceiptsIn(delta.resolved, f), Prune, f);
  }

  lemma {:induction false} AttestedIffReceipts(cs: seq<Claim>, f: string)
    ensures Attested(cs, f) <==> ReceiptsIn(cs, f) != {}
  {
    if Attested(cs, f) {
      var i :| 0 <= i < |cs| && cs[i].receipt.fact == f;
      assert cs[i].receipt in ReceiptsIn(cs, f);
    }
  }

  /** The fact was there and the incremental run did not take it away. */
  ghost predicate Remains(facts: map<string, Fact>, delta: Delta, f: string) {
    && f in facts
    && (|| Attested(delta.resolved, f)
        || ((f !in EdgesFrom(facts, delta.paths) || Attested(delta.parsed, f)) && f !in Vanished(facts, delta)))
  }

  /**
   For the work of an incremental index run: every published fact has a receipt of its
   own exactly when each parent fact that remains was written again or has a receipt
   that no redone file owns.
   */
  lemma {:induction false} DeltaOwnsSupportIff(db: Db, p: Plan, delta: Delta)
    requires Good(db) && Publishes(db, p) && p.Index? && Copies(db, p) && AllHonest(delta)
    requires p.work == DeltaWork(FactsOf(db, Current(db).value), delta)
    ensures OwnSupport(Transact(db, p).0, p.sid) <==>
            forall f :: Remains(FactsOf(db, Current(db).value), delta, f) ==>
              || Attested(delta.parsed, f) || Attested(delta.resolved, f)
              || OwnedOutside(ReceiptsFor(db, Current(db).value, f), delta.owners) != {}
  {
    var parent := Current(db).value;
    OwnSupportIff(db, p);
    hide Transact, Good, Publishes, OwnSupport, Current, EdgesFrom, Vanished, Attested, ReceiptsIn, OwnedOutside,
      DeltaWork, Present, Vouchers, ReceiptsFor, FactsOf;
    forall f | f in FactsOf(db, parent)
      ensures Remains(FactsOf(db, parent), delta, f) <==> Present(true, p.work, f)
      ensures Present(true, p.work, f) ==>
                (Vouchers(true, ReceiptsFor(db, parent, f), p.work, f) != {} <==>
                 || Attested(delta.parsed, f) || Attested(delta.resolved, f)
                 || OwnedOutside(ReceiptsFor(db, parent, f), delta.owners) != {})
    {
      FollowedDelta(true, ReceiptsFor(db, parent, f), FactsOf(db, parent), delta, f);
      AttestedIffReceipts(delta.parsed, f);
      AttestedIffReceipts(delta.resolved, f);
    }
  }

  // ---------- runs that publish ----------

  lemma {:induction false} WorkAppend(db: Db, sid: string, a: seq<Op>, b: seq<Op>)
    ensures ApplyAll(db, sid, a + b) ==
            if ApplyAll(db, sid, a).None? then None else ApplyAll(ApplyAll(db, sid, a).value, sid, b)
    decreases |b|
  {
    hide Apply;
    if b == [] {
      assert a + b == a;
    } else {
      var n := |b| - 1;
      assert (a + b)[..|a + b| - 1] == a + b[..n];
      WorkAppend(db, sid, a, b[..n]);
    }
  }

  lemma {:induction false} OneOp(db: Db, sid: string, op: Op)
    ensures ApplyAll(db, sid, [op]) == Apply(db, sid, op)
  {
    assert [op][..0] == [];
  }

  /** No edge is written under the id of a fact of another kind. */
  ghost predicate Writable(facts: map<string, Fact>, cs: seq<Claim>) {
    forall j :: 0 <= j < |cs| && cs[j].fact.Edge? && cs[j].id in Stored(facts, cs[..j]) ==>
      Stored(facts, cs[..j])[cs[j].id].kind == cs[j].fact.kind
  }

  lemma {:induction false} ClaimSucceeds(db: Db, sid: string, c: Claim) returns (e: Db)
    requires Staging(db, sid) && Honest(c)
    requires c.fact.Edge? && c.id in FactsOf(db, sid) ==> FactsOf(db, sid)[c.id].kind == c.fact.kind
    ensures ApplyAll(db, sid, [Put(c), AddReceipt(c.receipt)]) == Some(e)
    ensures e.rows == db.rows
    ensures FactsOf(e, sid) ==
            if c.fact.Edge? && c.id in FactsOf(db, sid) then FactsOf(db, sid) else FactsOf(db, sid)[c.id := c.fact]
  {
    var mid := Apply(db, sid, Put(c)).value;
    e := Apply(mid, sid, AddReceipt(c.receipt)).value;
    OneOp(db, sid, Put(c));
    OneOp(mid, sid, AddReceipt(c.receipt));
    WorkAppend(db, sid, [Put(c)], [AddReceipt(c.receipt)]);
    assert [Put(c)] + [AddReceipt(c.receipt)] == [Put(c), AddReceipt(c.receipt)];
  }

  lemma {:induction false} ClaimsSucceed(db: Db, sid: string, cs: seq<Claim>) returns (e: Db)
    requires Staging(db, sid) && (forall i :: 0 <= i < |cs| ==> Honest(cs[i])) && Writable(FactsOf(db, sid), cs)
    ensures ApplyAll(db, sid, Ops(cs)) == Some(e)
    ensures e.rows == db.rows && FactsOf(e, sid) == Stored(FactsOf(db, sid), cs)
    decreases |cs|
  {
    hide Apply, Honest, FactsOf;
    if cs == [] {
      e := db;
    } else {
      var n := |cs| - 1;
      var head := cs[..n];
      forall j | 0 <= j < |head| && head[j].fact.Edge? && head[j].id in Stored(FactsOf(db, sid), head[..j])
        ensures Stored(FactsOf(db, sid), head[..j])[head[j].id].kind == head[j].fact.kind
      {
        assert head[..j] == cs[..j] && head[j] == cs[j];
      }
      var mid := ClaimsSucceed(db, sid, head);
      assert cs[n].fact.Edge? && cs[n].id in Stored(FactsOf(db, sid), cs[..n]) ==>
          Stored(FactsOf(db, sid), cs[..n])[cs[n].id].kind == cs[n].fact.kind;
      e := ClaimSucceeds(mid, sid, cs[n]);
      WorkAppend(db, sid, Ops(head), [Put(cs[n]), AddReceipt(cs[n].receipt)]);
    }
  }

  function Kept(facts: map<string, Fact>, delta: Delta): map<string, Fact> {
    Stored(facts - EdgesFrom(facts, delta.paths), delta.parsed) - Vanished(facts, delta)
  }

  ghost predicate DeltaWritable(facts: map<string, Fact>, delta: Delta) {
    && Writable(facts - EdgesFrom(facts, delta.paths), delta.parsed)
    && Writable(Kept(facts, delta), delta.resolved)
  }

  lemma {:induction false} DropsSucceed(db: Db, sid: string, delta: Delta) returns (e: Db)
    requires Staging(db, sid)
    ensures ApplyAll(db, sid, [DropReceipts(delta.owners), DropFacts(EdgesFrom(FactsOf(db, sid), delta.paths))]) ==
              Some(e)
    ensures e.rows == db.rows
    ensures FactsOf(e, sid) == FactsOf(db, sid) - EdgesFrom(FactsOf(db, sid), delta.paths)
  {
    hide EdgesFrom;
    var edges := EdgesFrom(FactsOf(db, sid), delta.paths);
    var mid := Apply(db, sid, DropReceipts(delta.owners)).value;
    e := Apply(mid, sid, DropFacts(edges)).value;
    OneOp(db, sid, DropReceipts(delta.owners));
    OneOp(mid, sid, DropFacts(edges));
    WorkAppend(db, sid, [DropReceipts(delta.owners)], [DropFacts(edges)]);
    assert [DropReceipts(delta.owners)] + [DropFacts(edges)] == [DropReceipts(delta.owners), DropFacts(edges)];
  }

  lemma {:induction false} DeltaSucceeds(db: Db, sid: string, delta: Delta)
    requires Staging(db, sid) && AllHonest(delta) && DeltaWritable(FactsOf(db, sid), delta)
    ensures ApplyAll(db, sid, DeltaWork(FactsOf(db, sid), delta)).Some?
  {
    var facts := FactsOf(db, sid);
    var v := Vanished(facts, delta);
    var d1 := DropsSucceed(db, sid, delta);
    hide Honest, EdgesFrom, Vanished, Ops, Stored, Writable, Staging;
    Restaged(db, d1, sid);
    var d2 := ClaimsSucceed(d1, sid, delta.parsed);
    var d3 := VanishedDropped(d2, sid, v);
    Restaged(db, d3, sid);
    var d4 := ClaimsSucceed(d3, sid, delta.resolved);
    Restaged(db, d4, sid);
    PruneSucceeds(d4, sid);
    WorkAppend(d3, sid, Ops(delta.resolved), [Prune]);
    WorkAppend(d2, sid, [DropFacts(v)], Ops(delta.resolved) + [Prune]);
    WorkAppend(d1, sid, Ops(delta.parsed), [DropFacts(v)] + (Ops(delta.resolved) + [Prune]));
    WorkAppend(db, sid, [DropReceipts(delta.owners), DropFacts(EdgesFrom(facts, delta.paths))],
               Ops(delta.parsed) + ([DropFacts(v)] + (Ops(delta.resolved) + [Prune])));
  }

  lemma {:induction false} Restaged(db: Db, e: Db, sid: string)
    requires Staging(db, sid) && e.rows == db.rows
    ensures Staging(e, sid)
  {
  }

  lemma {:induction false} VanishedDropped(db: Db, sid: string, v: set<string>) returns (e: Db)
    ensures ApplyAll(db, sid, [DropFacts(v)]) == Some(e) && e.rows == db.rows && FactsOf(e, sid) == FactsOf(db, sid) - v
  {
    e := Apply(db, sid, DropFacts(v)).value;
    OneOp(db, sid, DropFacts(v));
  }

  lemma {:induction false} PruneSucceeds(db: Db, sid: string)
    requires Staging(db, sid)
    ensures ApplyAll(db, sid, [Prune]).Some?
  {
    OneOp(db, sid, Prune);
  }

  lemma {:induction false} SupportedPublishes(db: Db, sid: string, parent: Option<string>, work: seq<Op>, d2: Db)
    requires ApplyAll(db, sid, work) == Some(d2) && Staging(db, sid)
    requires parent.Some? ==> parent.value != sid
    requires forall f :: Present(f in FactsOf(db, sid), work, f) ==>
      || Vouchers(f in FactsOf(db, sid), ReceiptsFor(db, sid, f), work, f) != {}
      || (parent.Some? && f in FactsOf(db, parent.value))
    ensures Unsupported(d2, sid, parent) == {} && Publish(d2, sid).Some?
  {
    hide ApplyAll, Present, Vouchers;
    WorkStaysInside(db, sid, work, d2);
    if parent.Some? {
      assert SameGraph(d2, db, parent.value);
    }
    forall f | f in FactsOf(d2, sid)
      ensures f in SupportedFacts(d2, sid) || (parent.Some? && f in FactsOf(d2, parent.value))
    {
      WorkTracksFact(db, sid, work, d2, f);
      ReceiptsForAreSupport(d2, sid, f);
    }
  }

  /** An incremental run that writes every fact with its receipt always publishes. */
  lemma {:induction false} DeltaPublishes(db: Db, p: Plan, delta: Delta)
    requires Good(db) && p.Index? && Copies(db, p) && !p.raisesEarly && !p.sameInput && p.sid !in Ids(db.rows)
    requires p.work == DeltaWork(FactsOf(db, Current(db).value), delta)
    requires AllHonest(delta) && DeltaWritable(FactsOf(db, Current(db).value), delta)
    ensures Publishes(db, p)
  {
    var parent := Current(db);
    StagingStarts(db, p);
    var d1 := StagingGraph(db, p);
    hide Good, Stage, Honest, Current, DeltaWork, DeltaWritable, Attested, ReceiptsIn, OwnedOutside, EdgesFrom,
      Vanished, Unsupported, Publish, Staging, Present, Vouchers, FactsOf;
    var facts := FactsOf(db, parent.value);
    assert SameGraph(d1, db, parent.value);
    DeltaSucceeds(d1, p.sid, delta);
    var d2 := ApplyAll(d1, p.sid, p.work).value;
    forall f | Present(f in FactsOf(d1, p.sid), p.work, f)
      ensures || Vouchers(f in FactsOf(d1, p.sid), ReceiptsFor(d1, p.sid, f), p.work, f) != {}
              || f in FactsOf(d1, parent.value)
    {
      FollowedDelta(f in FactsOf(d1, p.sid), ReceiptsFor(d1, p.sid, f), facts, delta, f);
      AttestedIffReceipts(delta.parsed, f);
      AttestedIffReceipts(delta.resolved, f);
    }
    SupportedPublishes(d1, p.sid, parent, p.work, d2);
  }

  /** So does a full run. */
  lemma {:induction false} FullPublishes(db: Db, p: Plan, cs: seq<Claim>)
    requires Good(db) && p.Index? && !Copies(db, p) && !p.raisesEarly && p.sid !in Ids(db.rows)
    requires p.work == Ops(cs) + [Prune]
    requires (forall i :: 0 <= i < |cs| ==> Honest(cs[i])) && Writable(map[], cs)
    ensures Publishes(db, p) && FactsOf(Transact(db, p).0, p.sid) == Stored(map[], cs)
  {
    StagingStarts(db, p);
    var d1 := StagingGraph(db, p);
    hide Good, Stage, Honest, Current, Attested, ReceiptsIn, Unsupported, Publish, Staging, Present, Vouchers,
      FactsOf, Ops, Writable;
    var e := ClaimsSucceed(d1, p.sid, cs);
    Restaged(d1, e, p.sid);
    PruneSucceeds(e, p.sid);
    WorkAppend(d1, p.sid, Ops(cs), [Prune]);
    var d2 := ApplyAll(d1, p.sid, p.work).value;
    forall f | Present(f in FactsOf(d1, p.sid), p.work, f)
      ensures Vouchers(f in FactsOf(d1, p.sid), ReceiptsFor(d1, p.sid, f), p.work, f) != {}
    {
      var rs := ReceiptsFor(d1, p.sid, f);
      FollowedAppend(false, rs, Ops(cs), [Prune], f);
      FollowedClaims(false, rs, cs, f);
      FollowedOp(Attested(cs, f), rs + ReceiptsIn(cs, f), Prune, f);
      AttestedIffReceipts(cs, f);
    }
    SupportedPublishes(d1, p.sid, None, p.work, d2);
    PruneKeepsFacts(e, p.sid, d2);
    PublishKeepsFacts(d2, p.sid);
  }

  lemma {:induction false} PruneKeepsFacts(db: Db, sid: string, d: Db)
    requires ApplyAll(db, sid, [Prune]) == Some(d)
    ensures FactsOf(d, sid) == FactsOf(db, sid)
  {
    OneOp(db, sid, Prune);
  }

  lemma {:induction false} PublishKeepsFacts(db: Db, sid: string)
    requires Publish(db, sid).Some?
    ensures FactsOf(Publish(db, sid).value, sid) == FactsOf(db, sid)
  {
  }

  // ---------- a directory that loses its receipt ----------

  const PATH := "d/a.c"
  const REPOSITORY := "node:REPOSITORY:r"
  const DIRECTORY := "node:DIRECTORY:d"
  const FILE := "node:FILE:d/a.c"
  const BEFORE := "node:FUNCTION:v2:0"
  const AFTER := "node:FUNCTION:v2:01"

  function NodeClaim(id: string, kind: string, path: string, owner: string): Claim {
    Claim(id, Node(kind, "", "", "c", path), Receipt(id, kind, owner, "legacy_builtin", "", ""))
  }

  function Contains(source: string, target: string): Claim {
    var id := EdgeId("CONTAINS", source, target);
    Claim(id, Edge("CONTAINS", source, target), Receipt(id, "CONTAINS", PATH, "legacy_builtin", "", ""))
  }

  /** A full run over one file in one directory: the directory is admitted on behalf of that file. */
  const FIRST: seq<Claim> := [
    NodeClaim(FILE, "FILE", PATH, PATH), NodeClaim(BEFORE, "FUNCTION", PATH, PATH),
    NodeClaim(REPOSITORY, "REPOSITORY", "", ""), NodeClaim(DIRECTORY, "DIRECTORY", "d", PATH),
    Contains(REPOSITORY, DIRECTORY), Contains(DIRECTORY, FILE), Contains(FILE, BEFORE)]

  /** An incremental run after the function was renamed: the directory is there, so it is not admitted again. */
  const RENAMED := Delta(
    {PATH}, {PATH},
    [NodeClaim(FILE, "FILE", PATH, PATH), NodeClaim(AFTER, "FUNCTION", PATH, PATH)], {FILE, AFTER},
    [Contains(REPOSITORY, DIRECTORY), Contains(DIRECTORY, FILE), Contains(FILE, AFTER)])

  function FirstRun(): Plan {
    Index("s1", 0, false, false, Ops(FIRST) + [Prune], false, false)
  }

  function SecondRun(): Plan {
    Index("s2", 0, false, false, DeltaWork(Stored(map[], FIRST), RENAMED), false, false)
  }

  /** Node ids and edge ids differ in their first letter, and every edge contains something. */
  ghost predicate Keyed(facts: map<string, Fact>) {
    forall id :: id in facts ==>
      id != "" && if facts[id].Edge? then id[0] == 'e' && facts[id].kind == "CONTAINS" else id[0] == 'n'
  }

  predicate WellKeyed(c: Claim) {
    Honest(c) && c.id != "" && if c.fact.Edge? then c.id[0] == 'e' && c.fact.kind == "CONTAINS" else c.id[0] == 'n'
  }

  lemma {:induction false} KeyedStays(facts: map<string, Fact>, cs: seq<Claim>)
    requires Keyed(facts) && forall i :: 0 <= i < |cs| ==> WellKeyed(cs[i])
    ensures Keyed(Stored(facts, cs))
    decreases |cs|
  {
    if cs != [] {
      var n := |cs| - 1;
      assert WellKeyed(cs[n]);
      KeyedStays(facts, cs[..n]);
      hide Honest;
    }
  }

  lemma {:induction false} KeyedIsWritable(facts: map<string, Fact>, cs: seq<Claim>)
    requires Keyed(facts) && forall i :: 0 <= i < |cs| ==> WellKeyed(cs[i])
    ensures Writable(facts, cs)
  {
    hide Stored;
    forall j | 0 <= j < |cs| && cs[j].fact.Edge? && cs[j].id in Stored(facts, cs[..j])
      ensures Stored(facts, cs[..j])[cs[j].id].kind == cs[j].fact.kind
    {
      KeyedStays(facts, cs[..j]);
      assert WellKeyed(cs[j]);
    }
  }

  /** The last claim of an id decides what is stored under it. */
  lemma {:induction false} LastClaimStands(facts: map<string, Fact>, cs: seq<Claim>, id: string, fact: Fact)
    requires fact.Node? && (id in facts ==> facts[id] == fact)
    requires id in facts || exists i :: 0 <= i < |cs| && cs[i].id == id
    requires forall i :: 0 <= i < |cs| && cs[i].id == id ==> cs[i].fact == fact
    ensures id in Stored(facts, cs) && Stored(facts, cs)[id] == fact
    decreases |cs|
  {
    if cs != [] {
      var n := |cs| - 1;
      if id in facts || exists i :: 0 <= i < n && cs[..n][i].id == id {
        LastClaimStands(facts, cs[..n], id, fact);
      } else {
        assert cs[n].id == id;
      }
    }
  }

  lemma {:induction false} TheClaims()
    ensures forall i :: 0 <= i < |FIRST| ==> WellKeyed(FIRST[i])
    ensures forall i :: 0 <= i < |RENAMED.parsed| ==> WellKeyed(RENAMED.parsed[i])
    ensures forall i :: 0 <= i < |RENAMED.resolved| ==> WellKeyed(RENAMED.resolved[i])
    ensures FIRST[3].id == DIRECTORY && FIRST[3].fact == Node("DIRECTORY", "", "", "c", "d")
    ensures forall i :: 0 <= i < |FIRST| && FIRST[i].receipt.fact == DIRECTORY ==>
              i == 3 && FIRST[i].receipt.owner == PATH
    ensures forall i :: 0 <= i < |FIRST| && FIRST[i].id == DIRECTORY ==> i == 3
    ensures forall i :: 0 <= i < |RENAMED.parsed| ==> RENAMED.parsed[i].id != DIRECTORY
    ensures !Attested(RENAMED.parsed, DIRECTORY) && !Attested(RENAMED.resolved, DIRECTORY)
  {
  }

  lemma {:induction false} FirstRunPublishes()
    ensures Good(EMPTY) && Publishes(EMPTY, FirstRun())
    ensures var db := Transact(EMPTY, FirstRun()).0;
            && Good(db) && Current(db) == Some("s1") && FactsOf(db, "s1") == Stored(map[], FIRST)
            && OwnedOutside(ReceiptsFor(db, "s1", DIRECTORY), {PATH}) == {}
  {
    hide *;
    var p := FirstRun();
    FirstPlan();
    TheClaims();
    EmptyIsKeyed();
    KeyedIsWritable(map[], FIRST);
    AllAreHonest(FIRST);
    FullPublishes(EMPTY, p, FIRST);
    PublishedIsCurrent(EMPTY, p);
    TransactKeeps(EMPTY, p);
    FullReceipts(EMPTY, p, FIRST, DIRECTORY);
    OnlyPathOwns(DIRECTORY);
    WithinOwned(ReceiptsFor(Transact(EMPTY, p).0, "s1", DIRECTORY), ReceiptsIn(FIRST, DIRECTORY), {PATH});
  }

  lemma {:induction false} FirstPlan()
    ensures var p := FirstRun();
            && p.Index? && p.sid == "s1" && p.work == Ops(FIRST) + [Prune]
            && !p.raisesEarly && !p.raisesLate && !Copies(EMPTY, p)
    ensures Current(EMPTY).None? && Good(EMPTY) && "s1" !in Ids(EMPTY.rows)
  {
  }

  /** After a full run a fact has just the receipts written for it. */
  lemma {:induction false} FullReceipts(db: Db, p: Plan, cs: seq<Claim>, f: string)
    requires Good(db) && Publishes(db, p) && p.Index? && !Copies(db, p)
    requires p.work == Ops(cs) + [Prune] && forall i :: 0 <= i < |cs| ==> Honest(cs[i])
    ensures ReceiptsFor(Transact(db, p).0, p.sid, f) <= ReceiptsIn(cs, f)
  {
    hide Good, Transact, Publishes, Present, Vouchers, Ops, Honest;
    var d1, d2 := PublishedByWork(db, p);
    WorkTracksFact(d1, p.sid, p.work, d2, f);
    assert WorkOf(p) == p.work && ReceiptsFor(d1, p.sid, f) == {};
    assert ReceiptsFor(Transact(db, p).0, p.sid, f) == ReceiptsFor(d2, p.sid, f);
    FollowedAppend(false, {}, Ops(cs), [Prune], f);
    FollowedClaims(false, {}, cs, f);
    FollowedOp(Attested(cs, f), {} + ReceiptsIn(cs, f), Prune, f);
  }

  lemma {:induction false} OnlyPathOwns(f: string)
    requires forall i :: 0 <= i < |FIRST| && FIRST[i].receipt.fact == f ==> FIRST[i].receipt.owner == PATH
    ensures OwnedOutside(ReceiptsIn(FIRST, f), {PATH}) == {}
  {
    hide FIRST, PATH;
  }

  lemma {:induction false} WithinOwned(rs: set<Receipt>, all: set<Receipt>, owners: set<string>)
    requires rs <= all && OwnedOutside(all, owners) == {}
    ensures OwnedOutside(rs, owners) == {}
  {
    forall r | r in OwnedOutside(rs, owners) ensures r in OwnedOutside(all, owners) {
    }
  }

  lemma {:induction false} EmptyIsKeyed()
    ensures Keyed(map[])
  {
  }

  lemma {:induction false} AllAreHonest(cs: seq<Claim>)
    requires forall i :: 0 <= i < |cs| ==> WellKeyed(cs[i])
    ensures forall i :: 0 <= i < |cs| ==> Honest(cs[i])
  {
  }

  lemma {:induction false} DirectoryIsStored()
    ensures var facts := Stored(map[], FIRST);
            DIRECTORY in facts && facts[DIRECTORY] == Node("DIRECTORY", "", "", "c", "d") && Keyed(facts)
  {
    TheClaims();
    EmptyIsKeyed();
    hide Keyed, WellKeyed, Stored;
    KeyedStays(map[], FIRST);
    LastClaimStands(map[], FIRST, DIRECTORY, Node("DIRECTORY", "", "", "c", "d"));
  }

  lemma {:induction false} DirectoryRemains(facts: map<string, Fact>)
    requires DIRECTORY in facts && facts[DIRECTORY] == Node("DIRECTORY", "", "", "c", "d")
    ensures DIRECTORY !in EdgesFrom(facts, {PATH}) && DIRECTORY !in Vanished(facts, RENAMED)
  {
    TheClaims();
    hide Stored, WellKeyed, FIRST;
    LastClaimStands(facts - EdgesFrom(facts, {PATH}), RENAMED.parsed, DIRECTORY, Node("DIRECTORY", "", "", "c", "d"));
  }

  lemma {:induction false} RenamedIsWritable(facts: map<string, Fact>)
    requires Keyed(facts)
    ensures DeltaWritable(facts, RENAMED)
  {
    TheClaims();
    hide *;
    KeyedLess(facts, EdgesFrom(facts, RENAMED.paths));
    var left := facts - EdgesFrom(facts, RENAMED.paths);
    KeyedIsWritable(left, RENAMED.parsed);
    KeyedStays(left, RENAMED.parsed);
    KeyedLess(Stored(left, RENAMED.parsed), Vanished(facts, RENAMED));
    KeyedIsWritable(Stored(left, RENAMED.parsed) - Vanished(facts, RENAMED), RENAMED.resolved);
    DeltaWritableParts(facts, RENAMED);
  }

  lemma {:induction false} KeyedLess(facts: map<string, Fact>, gone: set<string>)
    requires Keyed(facts)
    ensures Keyed(facts - gone)
  {
  }

  lemma {:induction false} DeltaWritableParts(facts: map<string, Fact>, delta: Delta)
    requires Writable(facts - EdgesFrom(facts, delta.paths), delta.parsed)
    requires Writable(Stored(facts - EdgesFrom(facts, delta.paths), delta.parsed) - Vanished(facts, delta),
              delta.resolved)
    ensures DeltaWritable(facts, delta)
  {
    hide Writable, EdgesFrom, Vanished, Stored;
  }

  /**
   Support may live in an ancestor alone: renaming a function drops the receipt of the
   directory around its file, which no incremental run writes again.
   */
  lemma {:induction false} SupportMayLiveInAnAncestorOnly()
    ensures var d := After([FirstRun(), SecondRun()]);
            && Current(d) == Some("s2") && DIRECTORY in FactsOf(d, "s2") && DIRECTORY !in SupportedFacts(d, "s2")
            && !OwnSupport(d, "s2")
  {
    var plans := [FirstRun(), SecondRun()];
    var db := Transact(EMPTY, FirstRun()).0;
    assert After(plans) == Transact(db, SecondRun()).0 by {
      assert plans[..1] == [FirstRun()] && plans[..1][..0] == [];
      assert After(plans[..1][..0]) == EMPTY && After(plans[..1]) == db;
    }
    FirstRunPublishes();
    SecondRunPublishes(db);
  }

  lemma {:induction false} SecondRunPublishes(db: Db)
    requires Good(db) && db == Transact(EMPTY, FirstRun()).0
    requires Current(db) == Some("s1") && FactsOf(db, "s1") == Stored(map[], FIRST)
    requires OwnedOutside(ReceiptsFor(db, "s1", DIRECTORY), {PATH}) == {}
    ensures var d := Transact(db, SecondRun()).0;
            && Current(d) == Some("s2") && DIRECTORY in FactsOf(d, "s2") && DIRECTORY !in SupportedFacts(d, "s2")
            && !OwnSupport(d, "s2")
  {
    hide *;
    var p, facts := SecondRun(), Stored(map[], FIRST);
    SecondPlan(db);
    DirectoryIsStored();
    RenamedIsWritable(facts);
    DirectoryRemains(facts);
    TheClaims();
    RenamedIsHonest();
    SecondIdIsFresh(db);
    DeltaPublishes(db, p, RENAMED);
    PublishedIsCurrent(db, p);
    DirectoryIsBare(db, p, facts);
  }

  lemma {:induction false} SecondPlan(db: Db)
    requires Current(db) == Some("s1")
    ensures var p := SecondRun();
            && p.Index? && p.sid == "s2" && !p.raisesEarly && !p.sameInput && Copies(db, p)
            && p.work == DeltaWork(Stored(map[], FIRST), RENAMED)
    ensures RENAMED.owners == RENAMED.paths == {PATH}
  {
    hide Stored, DeltaWork, FIRST, Current;
  }

  lemma {:induction false} RenamedIsHonest()
    ensures AllHonest(RENAMED)
  {
    TheClaims();
    AllAreHonest(RENAMED.parsed);
    AllAreHonest(RENAMED.resolved);
    hide Honest, WellKeyed, FIRST, RENAMED;
  }

  lemma {:induction false} DirectoryIsBare(db: Db, p: Plan, facts: map<string, Fact>)
    requires Good(db) && Publishes(db, p) && p.Index? && Copies(db, p) && AllHonest(RENAMED)
    requires Current(db) == Some("s1") && FactsOf(db, "s1") == facts && p.work == DeltaWork(facts, RENAMED)
    requires OwnedOutside(ReceiptsFor(db, "s1", DIRECTORY), RENAMED.owners) == {}
    requires DIRECTORY in facts && DIRECTORY !in EdgesFrom(facts, RENAMED.paths)
              && DIRECTORY !in Vanished(facts, RENAMED)
    requires !Attested(RENAMED.parsed, DIRECTORY) && !Attested(RENAMED.resolved, DIRECTORY)
    ensures var d := Transact(db, p).0;
            DIRECTORY in FactsOf(d, p.sid) && DIRECTORY !in SupportedFacts(d, p.sid) && !OwnSupport(d, p.sid)
  {
    hide Good, Transact, Publishes, AllHonest, Present, Vouchers, Current, DeltaWork, EdgesFrom, Vanished, Attested,
      ReceiptsIn, SupportedFacts, FIRST, RENAMED, PATH, DIRECTORY, OwnedOutside;
    var d1, d2 := PublishedByWork(db, p);
    var rs := ReceiptsFor(db, "s1", DIRECTORY);
    assert ReceiptsFor(d1, p.sid, DIRECTORY) == rs && DIRECTORY in FactsOf(d1, p.sid) && WorkOf(p) == p.work;
    WorkTracksFact(d1, p.sid, p.work, d2, DIRECTORY);
    FollowedDelta(true, rs, facts, RENAMED, DIRECTORY);
    AttestedIffReceipts(RENAMED.parsed, DIRECTORY);
    AttestedIffReceipts(RENAMED.resolved, DIRECTORY);
    ReceiptsForAreSupport(Transact(db, p).0, p.sid, DIRECTORY);
  }

  lemma {:induction false} SecondIdIsFresh(db: Db)
    requires db == Transact(EMPTY, FirstRun()).0 && Good(db)
    ensures "s2" !in Ids(db.rows)
  {
    hide *;
    FirstRunPublishes();
    FirstPlan();
    OneMoreId(EMPTY, FirstRun());
    NoIds();
  }

  lemma {:induction false} NoIds()
    ensures Ids(EMPTY.rows) == {} && "s2" != "s1"
  {
  }

  lemma {:induction false} OneMoreId(db: Db, p: Plan)
    requires Good(db) && Publishes(db, p)
    ensures Ids(Transact(db, p).0.rows) == Ids(db.rows) + {p.sid}
  {
    var copy := p.Overlay? || (Current(db).Some? && !p.force);
    var d := Transact(db, p).0;
    assert Stage(db, p.sid, Current(db), p.now, copy, WorkOf(p)) == Some(d);
    hide Transact, Publishes, Stage, AllSupported, GoodRows, LastCreated, Current, FactsOf, ReceiptsOf;
    StageEffect(db, p.sid, Current(db), p.now, copy, WorkOf(p), d);
    IdsOfAppended(db.rows, d.rows[|db.rows|]);
  }

  lemma {:induction false} IdsOfAppended(rows: seq<Snapshot>, row: Snapshot)
    ensures Ids(rows + [row]) == Ids(rows) + {row.id}
  {
    forall id | id in Ids(rows) + {row.id} ensures id in Ids(rows + [row]) {
      if id == row.id {
        assert (rows + [row])[|rows|] == row;
      } else {
        var r :| r in rows && r.id == id;
        assert r in rows + [row];
      }
    }
  }

  /** The same index run, failing after its commit. */
  function FailingLate(p: Plan): Plan
    requires p.Index?
  {
    Index(p.sid, p.now, p.force, p.sameInput, p.work, p.raisesEarly, true)
  }

  /** A first run whose telemetry fails after the commit raises, and its snapshot is current all the same. */
  lemma {:induction false} LateFailureMovesCurrent()
    ensures var p := FailingLate(FirstRun());
            && Transact(EMPTY, p).1.Raised? && ReachesCommit(EMPTY, p)
            && Current(EMPTY).None? && Current(Transact(EMPTY, p).0) == Some("s1")
  {
    FirstRunPublishes();
    FirstPlan();
    hide FirstRun, Stage;
    PublishesIffReachesCommit(EMPTY, FirstRun());
    LateFailureSameTables(EMPTY, FirstRun());
  }

  lemma {:induction false} LateFailureSameTables(db: Db, p: Plan)
    requires p.Index? && Publishes(db, p) && !p.raisesLate && ReachesCommit(db, p)
    ensures Transact(db, FailingLate(p)) == (Transact(db, p).0, Raised)
    ensures ReachesCommit(db, FailingLate(p))
  {
    hide Stage, Current;
    assert StagingGraph(db, FailingLate(p)) == StagingGraph(db, p);
  }
}
