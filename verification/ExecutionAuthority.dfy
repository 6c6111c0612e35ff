/**
 Bounded execution of one profile: capped capture of two streams, capped
 artifacts, and the receipt that only a whole, undisturbed run may call PASS or FAIL.
 */
module ExecutionAuthority {
  import opened Prelude

  type Bytes = seq<bv8>

  datatype Stream = Stdout | Stderr
  datatype Read = Blocked | Eof | Chunk(data: Bytes)

  /** What one turn of the capture loop observes of the process, the clock and the pipes. */
  datatype Turn = Turn(
    running: bool, cancelled: bool, pastDeadline: bool, pastGrace: bool, ready: seq<(Stream, Read)>)

  datatype StopReason =
    | COMPLETED | CANCELLED | TIMEOUT | OUTPUT_LIMIT | INPUT_DRIFT | INPUT_UNAVAILABLE | ARTIFACT_LIMIT | RUNNER_ERROR

  /** One pipe: what was kept of it, whether something was cut off, whether it is still registered. */
  datatype Pipe = Pipe(kept: Bytes, truncated: bool, isOpen: bool)

  datatype Capture = Capture(out: Pipe, err: Pipe, reason: StopReason) {
    function Of(s: Stream): Pipe { if s == Stdout then out else err }

    /** Something was cut off. */
    predicate Cut() { out.truncated || err.truncated }

    function With(s: Stream, p: Pipe): Capture {
      if s == Stdout then this.(out := p) else this.(err := p)
    }
  }

  datatype Caps = Caps(out: nat, err: nat) {
    function Of(s: Stream): nat { if s == Stdout then out else err }
  }

  // ---------- what a pipe delivered ----------

  function DeliveredIn(ready: seq<(Stream, Read)>, s: Stream): Bytes {
    if ready == [] then []
    else
      var last := ready[|ready| - 1];
      DeliveredIn(ready[..|ready| - 1], s) + (if last.0 == s && last.1.Chunk? then last.1.data else [])
  }

  /** Everything a pipe delivered in these turns. */
  function Delivered(turns: seq<Turn>, s: Stream): Bytes {
    if turns == [] then []
    else Delivered(turns[..|turns| - 1], s) + DeliveredIn(turns[|turns| - 1].ready, s)
  }

  predicate EndedIn(ready: seq<(Stream, Read)>, s: Stream) {
    (s, Eof) in ready
  }

  ghost predicate Ended(turns: seq<Turn>, s: Stream) {
    exists k :: 0 <= k < |turns| && EndedIn(turns[k].ready, s)
  }

  function Prefix(data: Bytes, cap: nat): Bytes {
    if |data| <= cap then data else data[..cap]
  }

  /** A pipe keeps exactly the first cap bytes of what was delivered. */
  ghost predicate PipeKeeps(p: Pipe, delivered: Bytes, cap: nat) {
    p.kept == Prefix(delivered, cap) && (p.truncated <==> |delivered| > cap)
  }

  lemma {:induction false} KeepMore(p: Pipe, delivered: Bytes, cap: nat, data: Bytes)
    requires PipeKeeps(p, delivered, cap)
    ensures var room := if cap > |p.kept| then cap - |p.kept| else 0;
            PipeKeeps(Pipe(p.kept + Prefix(data, room), p.truncated || |data| > room, p.isOpen), delivered + data, cap)
  {
    if |delivered| + |data| > cap {
      if |delivered| > cap {
        assert (delivered + data)[..cap] == delivered[..cap];
      } else {
        assert (delivered + data)[..cap] == delivered + data[..cap - |delivered|];
      }
    }
  }

  // ---------- the capture loop ----------

  /** What the capture promises after each pipe delivered `seen`. */
  ghost predicate Keeps(c: Capture, caps: Caps, seen: Stream -> Bytes) {
    && PipeKeeps(c.out, seen(Stdout), caps.out) && PipeKeeps(c.err, seen(Stderr), caps.err)
    && (c.reason == COMPLETED ==> !c.out.truncated && !c.err.truncated)
  }

  ghost function Plus(seen: Stream -> Bytes, ready: seq<(Stream, Read)>): Stream -> Bytes {
    s => seen(s) + DeliveredIn(ready, s)
  }

  /** One read of one pipe. */
  method ReadPipe(
      caps: Caps, s: Stream, read: Read, c: Capture, ghost seen: Stream -> Bytes, ghost after: Stream -> Bytes)
    returns (d: Capture)
    requires Keeps(c, caps, seen)
    requires forall t: Stream :: after(t) == seen(t) + (if t == s && read.Chunk? then read.data else [])
    ensures Keeps(d, caps, after)
    ensures forall t: Stream :: d.Of(t).isOpen <==> c.Of(t).isOpen && !(t == s && read == Eof)
    ensures d.reason == c.reason || (c.reason == COMPLETED && d.reason == OUTPUT_LIMIT && d.Cut())
    ensures c.Cut() ==> d.Cut()
  {
    d := c;
    assert seen(Stdout) + [] == seen(Stdout) && seen(Stderr) + [] == seen(Stderr);
    match read {
      case Blocked =>
      case Eof =>
        d := d.With(s, d.Of(s).(isOpen := false));
      case Chunk(data) =>
        var p := d.Of(s);
        var room := if caps.Of(s) > |p.kept| then caps.Of(s) - |p.kept| else 0;
        KeepMore(p, seen(s), caps.Of(s), data);
        d := d.With(s, Pipe(p.kept + Prefix(data, room), p.truncated || |data| > room, p.isOpen));
        if |data| > room && d.reason == COMPLETED {
          d := d.(reason := OUTPUT_LIMIT);
        }
    }
  }

  /** The for loop over the ready pipes of one turn. */
  method ReadReady(caps: Caps, ready: seq<(Stream, Read)>, c: Capture, ghost seen: Stream -> Bytes) returns (d: Capture)
    requires Keeps(c, caps, seen)
    ensures Keeps(d, caps, Plus(seen, ready))
    ensures forall t: Stream :: d.Of(t).isOpen <==> c.Of(t).isOpen && !EndedIn(ready, t)
    ensures d.reason == c.reason || (c.reason == COMPLETED && d.reason == OUTPUT_LIMIT && d.Cut())
    ensures c.Cut() ==> d.Cut()
  {
    hide Keeps, Plus, EndedIn;
    d := c;
    ReadyStart(caps, ready, c, seen);
    for i := 0 to |ready|
      invariant Keeps(d, caps, Plus(seen, ready[..i]))
      invariant forall t: Stream :: d.Of(t).isOpen <==> c.Of(t).isOpen && !EndedIn(ready[..i], t)
      invariant d.reason == c.reason || (c.reason == COMPLETED && d.reason == OUTPUT_LIMIT && d.Cut())
      invariant c.Cut() ==> d.Cut()
    {
      EndedNext(ready, i);
      forall t: Stream ensures Plus(seen, ready[..i + 1])(t) ==
                               Plus(seen, ready[..i])(t)
                                   + (if t == ready[i].0 && ready[i].1.Chunk? then ready[i].1.data else [])
      {
        DeliveredNext(seen, ready, i, t);
      }
      d := ReadPipe(caps, ready[i].0, ready[i].1, d, Plus(seen, ready[..i]), Plus(seen, ready[..i + 1]));
    }
    assert ready[..|ready|] == ready;
  }

  lemma {:induction false} ReadyStart(caps: Caps, ready: seq<(Stream, Read)>, c: Capture, seen: Stream -> Bytes)
    requires Keeps(c, caps, seen)
    ensures Keeps(c, caps, Plus(seen, ready[..0])) && forall t: Stream :: !EndedIn(ready[..0], t)
  {
    assert ready[..0] == [];
    NothingDelivered(seen, Stdout);
    NothingDelivered(seen, Stderr);
  }

  lemma {:induction false} EndedNext(ready: seq<(Stream, Read)>, i: nat)
    requires i < |ready|
    ensures forall t: Stream :: EndedIn(ready[..i + 1], t) <==>
              EndedIn(ready[..i], t) || (t == ready[i].0 && ready[i].1 == Eof)
  {
    assert ready[..i + 1] == ready[..i] + [ready[i]];
  }

  lemma {:induction false} NothingDelivered(seen: Stream -> Bytes, s: Stream)
    ensures Plus(seen, [])(s) == seen(s)
  {
    assert seen(s) + [] == seen(s);
  }

  lemma {:induction false} DeliveredNext(seen: Stream -> Bytes, ready: seq<(Stream, Read)>, i: nat, t: Stream)
    requires i < |ready|
    ensures Plus(seen, ready[..i + 1])(t) ==
            Plus(seen, ready[..i])(t) + (if t == ready[i].0 && ready[i].1.Chunk? then ready[i].1.data else [])
  {
    assert ready[..i + 1][..i] == ready[..i];
    var more := if t == ready[i].0 && ready[i].1.Chunk? then ready[i].1.data else [];
    assert seen(t) + (DeliveredIn(ready[..i], t) + more) == seen(t) + DeliveredIn(ready[..i], t) + more;
  }

  datatype Outcome = StillRunning | Finished(capture: Capture, turns: nat)

  /** In the first n turns nobody cancelled, the deadline did not pass, and no pipe delivered too much. */
  ghost predicate Quiet(caps: Caps, turns: seq<Turn>, n: int)
    requires n <= |turns|
  {
    && 0 <= n && (forall k :: 0 <= k < n ==> !turns[k].cancelled && !turns[k].pastDeadline)
    && |Delivered(turns[..n], Stdout)| <= caps.out && |Delivered(turns[..n], Stderr)| <= caps.err
  }

  /** Turn k, the first that is not quiet, gives this reason. */
  ghost predicate StoppedBy(caps: Caps, turns: seq<Turn>, k: int, reason: StopReason)
    requires 0 <= k < |turns|
  {
    && Quiet(caps, turns, k) && !Quiet(caps, turns, k + 1)
    && reason == if turns[k].cancelled then CANCELLED else if turns[k].pastDeadline then TIMEOUT else OUTPUT_LIMIT
  }

  ghost predicate ReasonAfter(caps: Caps, turns: seq<Turn>, n: nat, reason: StopReason)
    requires n <= |turns|
  {
    if reason == COMPLETED then Quiet(caps, turns, n)
    else exists k :: 0 <= k < n && StoppedBy(caps, turns, k, reason)
  }

  /** Both streams ended and the process is gone, or it was stopped and its grace period is over. */
  ghost predicate Over(caps: Caps, turns: seq<Turn>, n: int)
    requires 0 <= n <= |turns|
  {
    || (n < |turns| && !turns[n].running && Ended(turns[..n], Stdout) && Ended(turns[..n], Stderr))
    || (n > 0 && !Quiet(caps, turns, n) && turns[n - 1].pastGrace)
  }

  lemma {:induction false} StillQuiet(caps: Caps, turns: seq<Turn>, k: int, n: int)
    requires 0 <= k <= n <= |turns| && Quiet(caps, turns, n)
    ensures Quiet(caps, turns, k)
    decreases n
  {
    if k < n {
      assert turns[..n][..n - 1] == turns[..n - 1];
      StillQuiet(caps, turns, k, n - 1);
    }
  }

  lemma {:induction false} StoppedIsNotQuiet(caps: Caps, turns: seq<Turn>, n: nat, reason: StopReason)
    requires n <= |turns| && ReasonAfter(caps, turns, n, reason)
    ensures Quiet(caps, turns, n) <==> reason == COMPLETED
  {
    hide Quiet;
    if reason != COMPLETED && Quiet(caps, turns, n) {
      var k :| 0 <= k < n && StoppedBy(caps, turns, k, reason);
      StillQuiet(caps, turns, k + 1, n);
      assert false;
    }
  }

  /** The reason after one more turn. */
  lemma {:induction false} NextReason(
      caps: Caps, turns: seq<Turn>, i: nat, before: StopReason, asked: StopReason, after: StopReason, cut: bool)
    requires i < |turns| && ReasonAfter(caps, turns, i, before)
    requires asked == if before != COMPLETED then before else if turns[i].cancelled then CANCELLED
                      else if turns[i].pastDeadline then TIMEOUT else COMPLETED
    requires after == asked || (asked == COMPLETED && after == OUTPUT_LIMIT && cut)
    requires after == COMPLETED ==> !cut
    requires cut <==> |Delivered(turns[..i + 1], Stdout)| > caps.out || |Delivered(turns[..i + 1], Stderr)| > caps.err
    ensures ReasonAfter(caps, turns, i + 1, after)
  {
    hide Delivered;
    if before == COMPLETED && after != COMPLETED {
      assert StoppedBy(caps, turns, i, after);
    } else if before != COMPLETED {
      hide StoppedBy;
    }
  }

  /**
   The loop over turns. It ends at the first moment when both pipes are closed and the
   process is gone, or when a stopped process outlives its grace period.
   */
  method Pump(caps: Caps, turns: seq<Turn>) returns (r: Outcome)
    ensures r.Finished? ==>
              && r.turns <= |turns|
              && (forall s: Stream :: PipeKeeps(r.capture.Of(s), Delivered(turns[..r.turns], s), caps.Of(s)))
              && (r.capture.reason == COMPLETED ==>
                    forall s: Stream :: !r.capture.Of(s).truncated && Ended(turns[..r.turns], s))
              && r.capture.reason in {COMPLETED, CANCELLED, TIMEOUT, OUTPUT_LIMIT}
    ensures r.Finished? ==>
              && ReasonAfter(caps, turns, r.turns, r.capture.reason)
              && Over(caps, turns, r.turns) && forall n :: 0 <= n < r.turns ==> !Over(caps, turns, n)
    ensures r.StillRunning? ==> forall n :: 0 <= n <= |turns| ==> !Over(caps, turns, n)
  {
    hide Keeps, PipeKeeps, Ended, EndedIn, ReasonAfter, Quiet, Over;
    var c := Capture(Pipe([], false, true), Pipe([], false, true), COMPLETED);
    PumpStart(caps, turns);
    for i := 0 to |turns|
      invariant Keeps(c, caps, s => Delivered(turns[..i], s))
      invariant forall s: Stream :: !c.Of(s).isOpen <==> Ended(turns[..i], s)
      invariant c.reason in {COMPLETED, CANCELLED, TIMEOUT, OUTPUT_LIMIT}
      invariant ReasonAfter(caps, turns, i, c.reason)
      invariant forall n :: 0 <= n < i ==> !Over(caps, turns, n)
      invariant !OverdueAt(turns, i, c.reason)
    {
      var turn := turns[i];
      OverMeans(caps, turns, i, c.reason);
      assert c.out == c.Of(Stdout) && c.err == c.Of(Stderr);
      if !c.out.isOpen && !c.err.isOpen && !turn.running {
        PumpEnd(c, caps, turns, i);
        return Finished(c, i);
      }
      ghost var before := c;
      StoppedKeeps(c, caps, s => Delivered(turns[..i], s));
      if c.reason == COMPLETED && turn.cancelled {
        c := c.(reason := CANCELLED);
      }
      if c.reason == COMPLETED && turn.pastDeadline {
        c := c.(reason := TIMEOUT);
      }
      ghost var asked := c;
      c := ReadReady(caps, turn.ready, c, s => Delivered(turns[..i], s));
      DeliveredTurn(c, caps, turns, i);
      CutMeans(c, caps, turns, i + 1);
      NextReason(caps, turns, i, before.reason, asked.reason, c.reason, c.Cut());
      forall s: Stream ensures !c.Of(s).isOpen <==> Ended(turns[..i + 1], s) {
        EndedLater(turns, i, s);
        assert !before.Of(s).isOpen <==> Ended(turns[..i], s);
      }
      OverMeans(caps, turns, i + 1, c.reason);
      if c.reason != COMPLETED && turn.pastGrace {
        PumpEnd(c, caps, turns, i + 1);
        return Finished(c, i + 1);
      }
    }
    OverMeans(caps, turns, |turns|, c.reason);
    r := StillRunning;
  }

  /** A stopped process has outlived its grace period. */
  predicate OverdueAt(turns: seq<Turn>, n: nat, reason: StopReason)
    requires n <= |turns|
  {
    n > 0 && reason != COMPLETED && turns[n - 1].pastGrace
  }

  lemma {:induction false} OverMeans(caps: Caps, turns: seq<Turn>, n: nat, reason: StopReason)
    requires n <= |turns| && ReasonAfter(caps, turns, n, reason)
    ensures Over(caps, turns, n) <==>
            || OverdueAt(turns, n, reason)
            || (n < |turns| && !turns[n].running && Ended(turns[..n], Stdout) && Ended(turns[..n], Stderr))
  {
    StoppedIsNotQuiet(caps, turns, n, reason);
    hide Quiet, Ended, ReasonAfter;
  }

  lemma {:induction false} CutMeans(c: Capture, caps: Caps, turns: seq<Turn>, n: nat)
    requires n <= |turns| && Keeps(c, caps, s => Delivered(turns[..n], s))
    ensures c.Cut() <==> |Delivered(turns[..n], Stdout)| > caps.out || |Delivered(turns[..n], Stderr)| > caps.err
    ensures c.reason == COMPLETED ==> !c.Cut()
  {
  }

  lemma {:induction false} PumpStart(caps: Caps, turns: seq<Turn>)
    ensures Keeps(Capture(Pipe([], false, true), Pipe([], false, true), COMPLETED), caps, s => Delivered(turns[..0], s))
    ensures ReasonAfter(caps, turns, 0, COMPLETED) && forall s: Stream :: !Ended(turns[..0], s)
  {
    assert turns[..0] == [];
  }

  /** Stopping changes only the reason. */
  lemma {:induction false} StoppedKeeps(c: Capture, caps: Caps, seen: Stream -> Bytes)
    requires Keeps(c, caps, seen)
    ensures forall reason :: reason != COMPLETED ==> Keeps(c.(reason := reason), caps, seen)
  {
  }

  lemma {:induction false} DeliveredTurn(c: Capture, caps: Caps, turns: seq<Turn>, i: nat)
    requires i < |turns| && Keeps(c, caps, Plus(s => Delivered(turns[..i], s), turns[i].ready))
    ensures Keeps(c, caps, s => Delivered(turns[..i + 1], s))
  {
    assert turns[..i + 1][..i] == turns[..i];
  }

  lemma {:induction false} PumpEnd(c: Capture, caps: Caps, turns: seq<Turn>, n: nat)
    requires n <= |turns| && Keeps(c, caps, s => Delivered(turns[..n], s))
    ensures forall s: Stream :: PipeKeeps(c.Of(s), Delivered(turns[..n], s), caps.Of(s))
    ensures c.reason == COMPLETED ==> forall s: Stream :: !c.Of(s).truncated
  {
    hide PipeKeeps, Delivered;
  }

  lemma {:induction false} EndedLater(turns: seq<Turn>, i: nat, s: Stream)
    requires i < |turns|
    ensures Ended(turns[..i + 1], s) <==> Ended(turns[..i], s) || EndedIn(turns[i].ready, s)
  {
    assert forall k :: 0 <= k < i ==> turns[..i + 1][k] == turns[..i][k];
    if EndedIn(turns[i].ready, s) {
      assert EndedIn(turns[..i + 1][i].ready, s);
    } else if Ended(turns[..i], s) {
      var k :| 0 <= k < i && EndedIn(turns[..i][k].ready, s);
      assert turns[..i + 1][k] == turns[..i][k];
    }
  }

  // ---------- artifacts ----------

  type Files = map<string, Bytes>

  datatype ArtifactRow =
    | Unavailable(path: string)
    | OverLimit(path: string, size: nat)
    | Captured(path: string, size: nat)

  /** Bytes already taken by the captured rows. */
  function Used(rows: seq<ArtifactRow>): nat {
    if rows == [] then 0
    else
      var last := rows[|rows| - 1];
      Used(rows[..|rows| - 1]) + (if last.Captured? then last.size else 0)
  }

  /** Row k, given the rows before it: the size limit is applied greedily, in order. */
  function ArtifactRowFor(path: string, readable: Files, used: nat, limit: nat): ArtifactRow {
    if path !in readable then Unavailable(path)
    else if used + |readable[path]| > limit then OverLimit(path, |readable[path]|)
    else Captured(path, |readable[path]|)
  }

  /** Captured with its size exactly if it is readable and still fits; over the limit if it does not fit. */
  ghost predicate FollowsBudget(row: ArtifactRow, path: string, readable: Files, used: nat, limit: nat) {
    && row.path == path
    && (row.Unavailable? <==> path !in readable)
    && (row.Captured? ==> path in readable && row.size == |readable[path]| <= limit - used)
    && (row.OverLimit? ==> path in readable && row.size == |readable[path]| > limit - used)
  }

  method CollectArtifacts(paths: seq<string>, limit: nat, readable: Files)
    returns (rows: seq<ArtifactRow>, blobs: map<int, Bytes>, limitHit: bool)
    ensures |rows| == |paths| && Used(rows) <= limit
    ensures forall k :: 0 <= k < |rows| ==> rows[k] == ArtifactRowFor(paths[k], readable, Used(rows[..k]), limit)
    ensures limitHit <==> exists k :: 0 <= k < |rows| && rows[k].OverLimit?
    ensures forall k :: 0 <= k < |rows| ==> FollowsBudget(rows[k], paths[k], readable, Used(rows[..k]), limit)
    ensures forall k :: k in blobs <==> 0 <= k < |rows| && rows[k].Captured?
    ensures forall k :: k in blobs ==> paths[k] in readable && blobs[k] == readable[paths[k]]
  {
    hide RowsFollow, Used, BlobsOf;
    rows, blobs, limitHit := [], map[], false;
    var used := 0;
    NoRowsYet(paths, readable, limit);
    for i := 0 to |paths|
      invariant |rows| == i && used == Used(rows) <= limit && RowsFollow(rows, paths, readable, limit)
      invariant limitHit <==> exists k :: 0 <= k < i && rows[k].OverLimit?
      invariant BlobsOf(blobs, rows, paths, readable)
    {
      var row := ArtifactRowFor(paths[i], readable, used, limit);
      ghost var before := rows;
      NextBlob(blobs, before, row, paths, readable, limit);
      assert forall k :: 0 <= k < i ==> (rows + [row])[k] == before[k];
      assert (rows + [row])[i] == row;
      if row.OverLimit? {
        limitHit := true;
      } else if row.Captured? {
        blobs := blobs[i := readable[paths[i]]];
        used := used + row.size;
      }
      rows := rows + [row];
      RowsFollowNext(before, row, paths, readable, limit);
      UsedNext(before, row);
    }
    AllFollow(rows, blobs, paths, readable, limit);
  }

  /** The stored blobs are the contents of the captured paths. */
  ghost predicate BlobsOf(blobs: map<int, Bytes>, rows: seq<ArtifactRow>, paths: seq<string>, readable: Files) {
    && |rows| <= |paths|
    && (forall k :: k in blobs <==> 0 <= k < |rows| && rows[k].Captured?)
    && (forall k :: k in blobs ==> paths[k] in readable && blobs[k] == readable[paths[k]])
  }

  lemma {:induction false} NoRowsYet(paths: seq<string>, readable: Files, limit: nat)
    ensures RowsFollow([], paths, readable, limit) && Used([]) == 0 && BlobsOf(map[], [], paths, readable)
  {
  }

  lemma {:induction false} UsedNext(before: seq<ArtifactRow>, row: ArtifactRow)
    ensures Used(before + [row]) == Used(before) + (if row.Captured? then row.size else 0)
  {
    assert (before + [row])[..|before|] == before;
  }

  lemma {:induction false} NextBlob(
      blobs: map<int, Bytes>, before: seq<ArtifactRow>, row: ArtifactRow, paths: seq<string>, readable: Files,
      limit: nat)
    requires |before| < |paths| && row == ArtifactRowFor(paths[|before|], readable, Used(before), limit)
    requires BlobsOf(blobs, before, paths, readable)
    ensures row.Captured? ==> paths[|before|] in readable
    ensures BlobsOf(if row.Captured? then blobs[|before| := readable[paths[|before|]]] else blobs, before + [row],
              paths, readable)
  {
    hide Used;
    var n, rows := |before|, before + [row];
    var next := if row.Captured? then blobs[n := readable[paths[n]]] else blobs;
    assert n !in blobs && rows[n] == row;
    hide ArtifactRowFor, BlobsOf;
    assert BlobsOf(next, rows, paths, readable) by {
      BlobsNext(blobs, before, row, paths, readable);
    }
  }

  lemma {:induction false} BlobsNext(
      blobs: map<int, Bytes>, before: seq<ArtifactRow>, row: ArtifactRow, paths: seq<string>, readable: Files)
    requires |before| < |paths| && BlobsOf(blobs, before, paths, readable)
    requires row.Captured? ==> paths[|before|] in readable
    ensures BlobsOf(if row.Captured? then blobs[|before| := readable[paths[|before|]]] else blobs, before + [row],
              paths, readable)
  {
    var n, rows := |before|, before + [row];
    forall k ensures (0 <= k < |rows| && rows[k].Captured?) <==>
        (0 <= k < n && before[k].Captured?) || (k == n && row.Captured?) {
      assert 0 <= k < n ==> rows[k] == before[k];
      assert k == n ==> rows[k] == row;
    }
  }

  lemma {:induction false} AllFollow(
      rows: seq<ArtifactRow>, blobs: map<int, Bytes>, paths: seq<string>, readable: Files, limit: nat)
    requires RowsFollow(rows, paths, readable, limit) && BlobsOf(blobs, rows, paths, readable)
    ensures forall k :: 0 <= k < |rows| ==> rows[k] == ArtifactRowFor(paths[k], readable, Used(rows[..k]), limit)
    ensures forall k :: k in blobs <==> 0 <= k < |rows| && rows[k].Captured?
    ensures forall k :: k in blobs ==> paths[k] in readable && blobs[k] == readable[paths[k]]
    ensures forall k :: 0 <= k < |rows| ==> FollowsBudget(rows[k], paths[k], readable, Used(rows[..k]), limit)
  {
  }

  /** Each row is what its path gets, given the budget the rows before it used. */
  ghost predicate RowsFollow(rows: seq<ArtifactRow>, paths: seq<string>, readable: Files, limit: nat) {
    |rows| <= |paths| &&
    forall k :: 0 <= k < |rows| ==> rows[k] == ArtifactRowFor(paths[k], readable, Used(rows[..k]), limit)
  }

  lemma {:induction false} RowsFollowNext(
      before: seq<ArtifactRow>, row: ArtifactRow, paths: seq<string>, readable: Files, limit: nat)
    requires RowsFollow(before, paths, readable, limit) && |before| < |paths|
    requires row == ArtifactRowFor(paths[|before|], readable, Used(before), limit)
    ensures RowsFollow(before + [row], paths, readable, limit)
    ensures (before + [row])[..|before|] == before
  {
    hide ArtifactRowFor;
    var rows := before + [row];
    forall k | 0 <= k < |rows| ensures rows[k] == ArtifactRowFor(paths[k], readable, Used(rows[..k]), limit) {
      assert rows[..k] == before[..k];
    }
  }

  // ---------- one execution ----------

  datatype Kind = BUILD | TEST
  datatype Policy = ExitZero | Pytest | UnknownPolicy
  datatype Verdict = PASS | FAIL | ERROR | UNKNOWN | TIMED_OUT | WAS_CANCELLED

  /** A word of a command line, or a place for a whole one. */
  datatype Token = Word(text: string) | Slot(name: string)

  datatype Profile = Profile(
    kind: Kind, repo: string, argv: seq<Token>, choices: map<string, set<string>>,
    inputs: seq<string>, caps: Caps, artifacts: seq<string>, artifactLimit: nat, policy: Policy)
  {
    /** Checked when the profile is made: the executable is fixed and every slot has its choices. */
    predicate WellFormed() {
      && argv != [] && argv[0].Word?
      && (set t | t in argv && t.Slot? :: t.name) == choices.Keys
    }
  }

  datatype Request = Request(
    profile: string, kind: Kind, change: Option<string>, parameters: seq<(string, string)>,
    expected: Option<Revision>, previous: string)

  function Supplied(parameters: seq<(string, string)>): map<string, string> {
    if parameters == [] then map[]
    else
      var last := parameters[|parameters| - 1];
      Supplied(parameters[..|parameters| - 1])[last.0 := last.1]
  }

  /** The command line of a request; None when the parameters are not exactly finite choices of the profile. */
  function Argv(p: Profile, parameters: seq<(string, string)>): Option<seq<string>>
    requires p.WellFormed()
  {
    var supplied := Supplied(parameters);
    if |supplied| != |parameters| || supplied.Keys != p.choices.Keys then None
    else if exists name :: name in supplied && supplied[name] !in p.choices[name] then None
    else Some(seq(|p.argv|, k requires 0 <= k < |p.argv| => TokenText(p, supplied, k)))
  }

  function TokenText(p: Profile, supplied: map<string, string>, k: nat): string
    requires p.WellFormed() && supplied.Keys == p.choices.Keys && k < |p.argv|
  {
    match p.argv[k]
    case Word(text) => text
    case Slot(name) =>
      assert name in (set t | t in p.argv && t.Slot? :: t.name) by {
        assert p.argv[k] in p.argv;
      }
      supplied[name]
  }

  lemma {:induction false} SuppliedNames(parameters: seq<(string, string)>)
    ensures forall k :: 0 <= k < |parameters| ==> parameters[k].0 in Supplied(parameters)
    ensures |Supplied(parameters)| <= |parameters|
    ensures |Supplied(parameters)| == |parameters| ==>
              forall k :: 0 <= k < |parameters| ==> Supplied(parameters)[parameters[k].0] == parameters[k].1
    decreases |parameters|
  {
    if parameters != [] {
      var n := |parameters| - 1;
      var rest := Supplied(parameters[..n]);
      SuppliedNames(parameters[..n]);
      assert forall k :: 0 <= k < n ==> parameters[..n][k] == parameters[k];
      assert Supplied(parameters).Keys == rest.Keys + {parameters[n].0};
      if parameters[n].0 in rest {
        assert Supplied(parameters).Keys == rest.Keys;
      }
    }
  }

  /**
   A request chooses nothing but parameters: the executable is the profile's, every other word
   its own or one of its choices.
   */
  lemma {:induction false} ArgvStaysInProfile(p: Profile, parameters: seq<(string, string)>)
    requires p.WellFormed() && Argv(p, parameters).Some?
    ensures var argv := Argv(p, parameters).value;
            && |argv| == |p.argv| && argv[0] == p.argv[0].text
            && forall k :: 0 <= k < |argv| ==>
                 match p.argv[k]
                 case Word(text) => argv[k] == text
                 case Slot(name) => name in p.choices && argv[k] in p.choices[name] && (name, argv[k]) in parameters
  {
    var supplied, argv := Supplied(parameters), Argv(p, parameters).value;
    SuppliedNames(parameters);
    forall k | 0 <= k < |argv| && p.argv[k].Slot?
      ensures var name := p.argv[k].name;
              name in p.choices && argv[k] in p.choices[name] && (name, argv[k]) in parameters
    {
      var name := p.argv[k].name;
      assert argv[k] == TokenText(p, supplied, k) == supplied[name];
      SuppliedComesFrom(parameters, name);
    }
  }

  /** Each slot is given once, by one of its choices, and nothing else is given. */
  ghost predicate Fitting(p: Profile, parameters: seq<(string, string)>) {
    && NamesDiffer(parameters)
    && (forall k :: 0 <= k < |parameters| ==>
          parameters[k].0 in p.choices && parameters[k].1 in p.choices[parameters[k].0])
    && forall name :: name in p.choices ==> Given(parameters, name)
  }

  ghost predicate Given(parameters: seq<(string, string)>, name: string) {
    exists k :: 0 <= k < |parameters| && parameters[k].0 == name
  }

  ghost predicate NamesDiffer(parameters: seq<(string, string)>) {
    forall i, j :: 0 <= i < j < |parameters| ==> parameters[i].0 != parameters[j].0
  }

  lemma {:induction false} GivenNext(parameters: seq<(string, string)>, name: string)
    requires parameters != []
    ensures Given(parameters, name) <==>
            Given(parameters[..|parameters| - 1], name) || name == parameters[|parameters| - 1].0
    ensures NamesDiffer(parameters) <==>
            && NamesDiffer(parameters[..|parameters| - 1])
            && !Given(parameters[..|parameters| - 1], parameters[|parameters| - 1].0)
  {
    var n := |parameters| - 1;
    assert forall k :: 0 <= k < n ==> parameters[..n][k] == parameters[k];
  }

  lemma {:induction false} SuppliedMeaning(parameters: seq<(string, string)>)
    ensures |Supplied(parameters)| == |parameters| <==> NamesDiffer(parameters)
    ensures forall name :: name in Supplied(parameters) <==> Given(parameters, name)
  {
    if parameters != [] {
      var n := |parameters| - 1;
      var rest := Supplied(parameters[..n]);
      SuppliedMeaning(parameters[..n]);
      SuppliedNames(parameters[..n]);
      assert Supplied(parameters).Keys == rest.Keys + {parameters[n].0};
      GivenNext(parameters, parameters[n].0);
      hide NamesDiffer, Given;
      forall name ensures name in Supplied(parameters) <==> Given(parameters, name) {
        GivenNext(parameters, name);
      }
      if parameters[n].0 in rest {
        assert Supplied(parameters).Keys == rest.Keys;
      }
    }
  }

  /** The request is turned down exactly when its parameters do not fit. */
  lemma {:induction false} ArgvIff(p: Profile, parameters: seq<(string, string)>)
    requires p.WellFormed()
    ensures Argv(p, parameters).Some? <==> Fitting(p, parameters)
  {
    SuppliedMeaning(parameters);
    SuppliedNames(parameters);
    hide Supplied;
    var supplied := Supplied(parameters);
    if |supplied| == |parameters| && supplied.Keys == p.choices.Keys {
      forall k | 0 <= k < |parameters|
        ensures parameters[k].0 in supplied && supplied[parameters[k].0] == parameters[k].1
      {
      }
    }
    if Fitting(p, parameters) {
      assert supplied.Keys == p.choices.Keys;
    }
  }

  lemma {:induction false} SuppliedComesFrom(parameters: seq<(string, string)>, name: string)
    requires name in Supplied(parameters)
    ensures (name, Supplied(parameters)[name]) in parameters
    decreases |parameters|
  {
    var n := |parameters| - 1;
    assert parameters[n] in parameters;
    if name != parameters[n].0 {
      SuppliedComesFrom(parameters[..n], name);
    }
  }

  type Revision = map<string, Bytes>

  /** The input revision: the contents of all declared inputs, or None when one is unavailable. */
  function InputRevision(p: Profile, files: Files): Option<Revision> {
    if exists k :: 0 <= k < |p.inputs| && p.inputs[k] !in files then None
    else Some(map f | f in p.inputs && f in files :: files[f])
  }

  predicate AllThere(p: Profile, files: Files) {
    forall f :: f in p.inputs ==> f in files
  }

  /** The revision holds the very bytes of every declared input. */
  ghost predicate Records(p: Profile, files: Files, revision: Revision) {
    && (forall f :: f in revision <==> f in p.inputs)
    && forall f :: f in p.inputs ==> f in files && revision[f] == files[f]
  }

  ghost predicate SameInputs(p: Profile, a: Files, b: Files) {
    forall f :: f in p.inputs ==> f in a && f in b && a[f] == b[f]
  }

  lemma {:induction false} RevisionExists(p: Profile, a: Files)
    ensures InputRevision(p, a).Some? <==> AllThere(p, a)
  {
    if AllThere(p, a) {
      forall k | 0 <= k < |p.inputs| ensures p.inputs[k] in a {
        assert p.inputs[k] in p.inputs;
      }
    }
  }

  /** A revision exists exactly when all inputs do, and it is the one record of them. */
  lemma {:induction false} RevisionMeaning(p: Profile, a: Files)
    ensures InputRevision(p, a).Some? <==> AllThere(p, a)
    ensures InputRevision(p, a).Some? ==> Records(p, a, InputRevision(p, a).value)
    ensures forall revision :: Records(p, a, revision) ==> InputRevision(p, a) == Some(revision)
  {
    RevisionExists(p, a);
    forall revision | Records(p, a, revision) ensures InputRevision(p, a) == Some(revision) {
      assert AllThere(p, a);
      var recorded := InputRevision(p, a).value;
      assert recorded.Keys == revision.Keys && forall f :: f in revision ==> recorded[f] == revision[f];
      assert recorded == revision;
    }
  }

  lemma {:induction false} SameRevisionIff(p: Profile, a: Files, b: Files)
    requires AllThere(p, a)
    ensures InputRevision(p, a) == InputRevision(p, b) <==> SameInputs(p, a, b)
  {
    RevisionMeaning(p, a);
    RevisionMeaning(p, b);
    hide InputRevision;
    if SameInputs(p, a, b) {
      assert Records(p, b, InputRevision(p, a).value);
    }
  }

  function ResultOf(kind: Kind, policy: Policy, exit: Option<int>, reason: StopReason): Verdict {
    if reason == TIMEOUT then TIMED_OUT
    else if reason == CANCELLED then WAS_CANCELLED
    else if reason == INPUT_DRIFT || reason == INPUT_UNAVAILABLE then UNKNOWN
    else if reason != COMPLETED || exit.None? then ERROR
    else if policy == UnknownPolicy then UNKNOWN
    else if policy == Pytest && kind == TEST then
      (if exit.value == 0 then PASS else if exit.value == 1 then FAIL else ERROR)
    else if policy == ExitZero then (if exit.value == 0 then PASS else FAIL)
    else UNKNOWN
  }

  /** The verdict, read off the policy, the exit code and the reason. */
  ghost predicate Judged(kind: Kind, policy: Policy, exit: Option<int>, reason: StopReason, result: Verdict) {
    && (result == TIMED_OUT <==> reason == TIMEOUT)
    && (result == WAS_CANCELLED <==> reason == CANCELLED)
    && (result == PASS <==>
          reason == COMPLETED && exit == Some(0) && (policy == ExitZero || (policy == Pytest && kind == TEST)))
    && (result == FAIL <==>
          reason == COMPLETED && exit.Some?
          && ((policy == ExitZero && exit != Some(0)) || (policy == Pytest && kind == TEST && exit == Some(1))))
    && (result == UNKNOWN <==>
          || reason in {INPUT_DRIFT, INPUT_UNAVAILABLE}
          || (reason == COMPLETED && exit.Some? && (policy == UnknownPolicy || (policy == Pytest && kind == BUILD))))
  }

  lemma {:induction false} ResultMeaning(kind: Kind, policy: Policy, exit: Option<int>, reason: StopReason)
    ensures Judged(kind, policy, exit, reason, ResultOf(kind, policy, exit, reason))
  {
  }

  /** What happens outside while one execution runs. */
  datatype Launch = LaunchFailed | Launched(turns: seq<Turn>, reaped: bool, exit: Option<int>)
  datatype Circumstances = Circumstances(before: Files, launch: Launch, after: Files, artifacts: Files)

  datatype Receipt = Receipt(
    kind: Kind, profile: string, repo: string, change: Option<string>, previous: string,
    before: Option<Revision>, after: Option<Revision>, invoked: bool,
    exit: Option<int>, reason: StopReason, result: Verdict, out: Pipe, err: Pipe, artifacts: seq<ArtifactRow>)

  datatype TestRun = TestRun(execution: string, profile: string, revision: Option<Revision>, result: Verdict)

  datatype Stored = Stored(receipt: Receipt, testRun: Option<TestRun>)

  datatype ExecutionError =
    | UnknownProfile
    | ParametersOutsideProfile
    | ExecutableUnavailable
    | ReceiptUnavailable
    | PreviousExecutionMismatch
    | NotReturnedYet

  const NOTHING_KEPT := Pipe([], false, false)

  /** The run was invoked, both streams were kept whole, and nothing moved or was dropped. */
  ghost predicate Undisturbed(r: Receipt) {
    && r.invoked && r.reason == COMPLETED && r.exit.Some?
    && r.before.Some? && r.before == r.after
    && !r.out.truncated && !r.err.truncated
    && forall k :: 0 <= k < |r.artifacts| ==> !r.artifacts[k].OverLimit?
  }

  ghost predicate Conclusive(r: Receipt) {
    r.result == PASS || r.result == FAIL
  }

  ghost predicate SoundlyStored(id: string, e: Stored) {
    && (Conclusive(e.receipt) ==> Undisturbed(e.receipt))
    && (e.testRun.Some? ==>
          && e.receipt.kind == TEST && Conclusive(e.receipt)
          && e.testRun.value == TestRun(id, e.receipt.profile, e.receipt.before, e.receipt.result))
  }

  lemma {:induction false} ConclusiveIsUndisturbed(r: Receipt, p: Profile, expected: Option<Revision>, c: Circumstances)
    requires SoundReceipt(r, p, expected, c)
    ensures Conclusive(r) ==> Undisturbed(r)
  {
  }

  /** Both streams ended, and what was kept of them is all they delivered. */
  ghost predicate WholeCapture(turns: seq<Turn>, out: Bytes, err: Bytes) {
    exists n: nat :: n <= |turns|
      && Ended(turns[..n], Stdout) && out == Delivered(turns[..n], Stdout)
      && Ended(turns[..n], Stderr) && err == Delivered(turns[..n], Stderr)
  }

  datatype Ran = Ran(out: Pipe, err: Pipe, exit: Option<int>, reason: StopReason)

  /** The process returned with this: nothing kept if it could not be run, else what the capture loop kept. */
  ghost predicate RanAs(caps: Caps, launch: Launch, ran: Ran) {
    if launch.LaunchFailed? then ran == Ran(NOTHING_KEPT, NOTHING_KEPT, None, RUNNER_ERROR)
    else
      exists n: nat :: n <= |launch.turns| && FirstOver(caps, launch.turns, n)
        && if !launch.reaped then ran == Ran(NOTHING_KEPT, NOTHING_KEPT, None, RUNNER_ERROR)
           else
             && PipeKeeps(ran.out, Delivered(launch.turns[..n], Stdout), caps.out)
             && PipeKeeps(ran.err, Delivered(launch.turns[..n], Stderr), caps.err)
             && ran.exit == launch.exit && ReasonAfter(caps, launch.turns, n, ran.reason)
  }

  ghost predicate FirstOver(caps: Caps, turns: seq<Turn>, n: nat) {
    n <= |turns| && Over(caps, turns, n) && forall k :: 0 <= k < n ==> !Over(caps, turns, k)
  }

  /** Launch and capture; None while the process has not returned. */
  method Launched(p: Profile, launch: Launch) returns (r: Option<Ran>)
    ensures r.Some? ==> RanAs(p.caps, launch, r.value)
    ensures r.None? ==> launch.Launched? && forall n: nat :: !FirstOver(p.caps, launch.turns, n)
    ensures r.Some? && r.value.reason == COMPLETED ==>
              && launch.Launched? && r.value.exit == launch.exit
              && !r.value.out.truncated && !r.value.err.truncated
              && WholeCapture(launch.turns, r.value.out.kept, r.value.err.kept)
  {
    if launch.LaunchFailed? {
      return Some(Ran(NOTHING_KEPT, NOTHING_KEPT, None, RUNNER_ERROR));
    }
    var outcome := Pump(p.caps, launch.turns);
    if outcome.StillRunning? {
      return None;
    }
    if !launch.reaped {
      return Some(Ran(NOTHING_KEPT, NOTHING_KEPT, None, RUNNER_ERROR));
    }
    var c := outcome.capture;
    assert c.out == c.Of(Stdout) && c.err == c.Of(Stderr);
    assert FirstOver(p.caps, launch.turns, outcome.turns);
    r := Some(Ran(c.out, c.err, launch.exit, c.reason));
  }

  ghost predicate SoundReceipt(r: Receipt, p: Profile, expected: Option<Revision>, c: Circumstances) {
    Conclusive(r) ==>
      && Undisturbed(r)
      && c.launch.Launched? && r.exit == c.launch.exit && (r.result == PASS <==> c.launch.exit == Some(0))
      && r.before == InputRevision(p, c.before) && r.after == InputRevision(p, c.after)
      && SameInputs(p, c.before, c.after)
      && (expected.Some? ==> expected == r.before && Records(p, c.before, expected.value))
      && WholeCapture(c.launch.turns, r.out.kept, r.err.kept)
  }

  ghost predicate DroppedSome(artifacts: seq<ArtifactRow>) {
    exists k :: 0 <= k < |artifacts| && artifacts[k].OverLimit?
  }

  /** The whole receipt, read off the profile, the expected revision and the circumstances. */
  ghost predicate ReceiptReads(r: Receipt, p: Profile, expected: Option<Revision>, c: Circumstances) {
    && (r.before.Some? <==> AllThere(p, c.before)) && (r.before.Some? ==> Records(p, c.before, r.before.value))
    && Judged(p.kind, p.policy, r.exit, r.reason, r.result)
    && (r.invoked <==> AllThere(p, c.before) && (expected.Some? ==> Records(p, c.before, expected.value)))
    && if !r.invoked then
         && r.after == r.before && r.exit.None? && r.out == NOTHING_KEPT && r.err == NOTHING_KEPT && r.artifacts == []
         && r.reason == if AllThere(p, c.before) then INPUT_DRIFT else INPUT_UNAVAILABLE
       else
         && (r.after.Some? <==> AllThere(p, c.after)) && (r.after.Some? ==> Records(p, c.after, r.after.value))
         && |r.artifacts| == |p.artifacts|
         && (forall k :: 0 <= k < |p.artifacts| ==>
               FollowsBudget(r.artifacts[k], p.artifacts[k], c.artifacts, Used(r.artifacts[..k]), p.artifactLimit))
         && exists reason :: RanAs(p.caps, c.launch, Ran(r.out, r.err, r.exit, reason))
              && r.reason == if !SameInputs(p, c.before, c.after) then INPUT_DRIFT
                             else if reason == COMPLETED && DroppedSome(r.artifacts) then ARTIFACT_LIMIT
                             else reason
  }

  /** The receipt names the request and the profile it was made for. */
  predicate BoundTo(r: Receipt, q: Request, p: Profile) {
    && r.kind == p.kind && r.profile == q.profile && r.repo == p.repo
    && r.change == q.change && r.previous == q.previous
  }

  /** The reason and result flow of one execution; None while the process has not returned. */
  method Perform(q: Request, p: Profile, c: Circumstances) returns (r: Option<Receipt>)
    ensures r.Some? ==> SoundReceipt(r.value, p, q.expected, c)
    ensures r.Some? ==> ReceiptReads(r.value, p, q.expected, c)
    ensures r.Some? ==> BoundTo(r.value, q, p) && r.value.before == InputRevision(p, c.before)
    ensures r.Some? ==>
      && (r.value.kind, r.value.repo) == (p.kind, p.repo)
      && (r.value.profile, r.value.change, r.value.previous) == (q.profile, q.change, q.previous)
    ensures r.Some? && Conclusive(r.value) ==> r.value.reason == COMPLETED
    ensures r.None? ==>
      AllThere(p, c.before) && c.launch.Launched? && forall n: nat :: !FirstOver(p.caps, c.launch.turns, n)
  {
    RevisionMeaning(p, c.before);
    RevisionMeaning(p, c.after);
    hide InputRevision, Records, RanAs, FirstOver, WholeCapture, Judged;
    var before := InputRevision(p, c.before);
    var reason := if before.None? then INPUT_UNAVAILABLE
                  else if q.expected.Some? && q.expected != before then INPUT_DRIFT else COMPLETED;
    if reason != COMPLETED {
      ResultMeaning(p.kind, p.policy, None, reason);
      return Some(Receipt(p.kind, q.profile, p.repo, q.change, q.previous, before, before, false, None, reason,
          ResultOf(p.kind, p.policy, None, reason),
                          NOTHING_KEPT, NOTHING_KEPT, []));
    }
    SameRevisionIff(p, c.before, c.after);
    hide SameInputs, AllThere;
    var ran := Launched(p, c.launch);
    if ran.None? {
      return None;
    }
    reason := ran.value.reason;
    var after := InputRevision(p, c.after);
    if after != before {
      reason := INPUT_DRIFT;
    }
    var rows, blobs, limitHit := CollectArtifacts(p.artifacts, p.artifactLimit, c.artifacts);
    if limitHit && reason == COMPLETED {
      reason := ARTIFACT_LIMIT;
    }
    ResultMeaning(p.kind, p.policy, ran.value.exit, reason);
    r := Some(Receipt(p.kind, q.profile, p.repo, q.change, q.previous, before, after, true, ran.value.exit, reason,
                      ResultOf(p.kind, p.policy, ran.value.exit, reason), ran.value.out, ran.value.err, rows));
    assert ran.value == Ran(r.value.out, r.value.err, r.value.exit, ran.value.reason);
  }

  /** What the receipt names as its previous execution is stored, for the same repository and change. */
  predicate Continues(executions: map<string, Stored>, r: Receipt) {
    && r.previous in executions && executions[r.previous].receipt.repo == r.repo
    && executions[r.previous].receipt.change == r.change
  }

  ghost predicate SoundStore(executions: map<string, Stored>) {
    && (forall id :: id in executions ==> SoundlyStored(id, executions[id]))
    && forall id :: id in executions && executions[id].receipt.previous != "" ==>
         Continues(executions, executions[id].receipt)
  }

  lemma {:induction false} StoringKeeps(executions: map<string, Stored>, id: string, e: Stored)
    requires SoundStore(executions) && id !in executions && SoundlyStored(id, e)
    requires e.receipt.previous != "" ==> Continues(executions, e.receipt)
    ensures SoundStore(executions[id := e])
  {
    hide SoundlyStored;
  }

  class Authority {
    const profiles: map<string, Profile>
    var executions: map<string, Stored>

    /**
     Every conclusive receipt is of an undisturbed run, every test run copies its
     receipt, and a previous execution is a stored one of the same repository and change.
     */
    ghost predicate Valid()
      reads this
    {
      (forall id :: id in profiles ==> profiles[id].WellFormed()) && SoundStore(executions)
    }

    constructor (profiles: map<string, Profile>)
      requires forall id :: id in profiles ==> profiles[id].WellFormed()
      ensures Valid() && this.profiles == profiles && executions == map[]
    {
      this.profiles := profiles;
      executions := map[];
    }

    /** The checks before anything runs, in the order of the source. */
    method Admit(q: Request, executables: set<string>) returns (refusal: Option<ExecutionError>)
      requires Valid()
      ensures refusal == Some(UnknownProfile) <==> q.profile !in profiles || profiles[q.profile].kind != q.kind
      ensures refusal.None? <==>
                && q.profile in profiles && profiles[q.profile].kind == q.kind
                && Argv(profiles[q.profile], q.parameters).Some?
                && profiles[q.profile].argv[0].text in executables
                && (q.previous != "" ==>
                      && q.previous in executions && executions[q.previous].receipt.repo == profiles[q.profile].repo
                      && executions[q.previous].receipt.change == q.change)
    {
      if q.profile !in profiles || profiles[q.profile].kind != q.kind { return Some(UnknownProfile); }
      var p := profiles[q.profile];
      var argv := Argv(p, q.parameters);
      if argv.None? { return Some(ParametersOutsideProfile); }
      if argv.value[0] !in executables { return Some(ExecutableUnavailable); }
      if q.previous != "" {
        if q.previous !in executions { return Some(ReceiptUnavailable); }
        var previous := executions[q.previous].receipt;
        if previous.repo != p.repo || previous.change != q.change { return Some(PreviousExecutionMismatch); }
      }
      refusal := None;
    }

    method Execute(id: string, q: Request, executables: set<string>, c: Circumstances)
      returns (r: Result<Receipt, ExecutionError>)
      requires Valid() && id != "" && id !in executions
      modifies this
      ensures Valid()
      ensures r.Err? ==> executions == old(executions)
      ensures r == Err(UnknownProfile) <==> q.profile !in profiles || profiles[q.profile].kind != q.kind
      ensures r.Ok? ==>
                && id in executions && executions == old(executions)[id := executions[id]]
                && executions[id].receipt == r.value
                && (executions[id].testRun.Some? <==> q.kind == TEST && Conclusive(r.value))
                && q.profile in profiles && BoundTo(r.value, q, profiles[q.profile])
                && Argv(profiles[q.profile], q.parameters).Some?
                && SoundReceipt(r.value, profiles[q.profile], q.expected, c)
                && ReceiptReads(r.value, profiles[q.profile], q.expected, c)
                && (q.previous != "" ==> Continues(old(executions), r.value))
      ensures r.Ok? ==>
                && q.profile in profiles
                && (r.value.kind, r.value.repo) == (q.kind, profiles[q.profile].repo)
                && (r.value.profile, r.value.change, r.value.previous) == (q.profile, q.change, q.previous)
                && (q.previous != "" ==>
                      && q.previous in old(executions)
                      && old(executions)[q.previous].receipt.repo == r.value.repo
                      && old(executions)[q.previous].receipt.change == r.value.change)
    {
      var refusal := Admit(q, executables);
      if refusal.Some? {
        return Err(refusal.value);
      }
      hide SoundReceipt, ReceiptReads, Argv, Undisturbed, SoundStore;
      var p := profiles[q.profile];
      var performed := Perform(q, p, c);
      if performed.None? {
        return Err(NotReturnedYet);
      }
      var receipt := performed.value;
      var conclusive := receipt.result == PASS || receipt.result == FAIL;
      var testRun := if q.kind == TEST && conclusive && receipt.reason == COMPLETED
                     then Some(TestRun(id, q.profile, receipt.before, receipt.result)) else None;
      ConclusiveIsUndisturbed(receipt, p, q.expected, c);
      StoringKeeps(executions, id, Stored(receipt, testRun));
      executions := executions[id := Stored(receipt, testRun)];
      r := Ok(receipt);
    }

    /** The admissible test run: a stored one whose declared inputs have not moved since. */
    method TestRunLookup(id: string, now: Files) returns (r: Option<TestRun>)
      requires Valid()
      ensures r.Some? <==>
                && id in executions && executions[id].testRun.Some?
                && executions[id].receipt.profile in profiles
                && InputRevision(profiles[executions[id].receipt.profile], now) == executions[id].receipt.before
      ensures r.Some? <==>
                && id in executions && executions[id].testRun.Some?
                && executions[id].receipt.profile in profiles && executions[id].receipt.before.Some?
                && Records(profiles[executions[id].receipt.profile], now, executions[id].receipt.before.value)
      ensures r.Some? ==>
                && r.value == executions[id].testRun.value
                && Undisturbed(executions[id].receipt) && r.value.result == executions[id].receipt.result
                && InputRevision(profiles[r.value.profile], now) == executions[id].receipt.after
    {
      if id !in executions {
        return None;
      }
      var e := executions[id];
      if e.receipt.kind != TEST || e.testRun.None? || !(e.receipt.result == PASS || e.receipt.result == FAIL)
         || e.testRun.value.execution != id || e.testRun.value.result != e.receipt.result {
        return None;
      }
      var run := e.testRun.value;
      if run.profile !in profiles {
        return None;
      }
      RevisionMeaning(profiles[run.profile], now);
      var current := InputRevision(profiles[run.profile], now);
      if current.None? || current != run.revision {
        return None;
      }
      r := Some(run);
    }
  }
}
