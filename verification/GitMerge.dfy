/**
 Audited merges: integrations are built, audited, invalidated and merged while Git
 itself is moved by others between commands.
 */
module GitMerge {
  import opened Prelude

  // ---------- Git ----------

  datatype Head = OnBranch(branch: string) | Detached(commit: string)

  datatype Worktree = Worktree(head: Head, clean: bool)

  /**
   Commits are immutable, so each one is given with everything it contains: itself
   and all its ancestors.
   */
  datatype Git = Git(
    past: map<string, set<string>>,
    branches: map<string, string>,
    worktrees: map<string, Worktree>,
    root: Worktree,
    identity: string)

  predicate Contains(g: Git, a: string, b: string) {
    a in g.past && b in g.past[a]
  }

  ghost predicate ValidGit(g: Git) {
    && (forall a :: a in g.past ==> a in g.past[a])
    && (forall a, b :: Contains(g, a, b) ==> b in g.past && g.past[b] <= g.past[a])
    && (forall a, b :: Contains(g, a, b) && Contains(g, b, a) ==> a == b)
    && (forall b :: b in g.branches ==> g.branches[b] in g.past)
  }

  /** Whatever others do to the repository: no commit is ever changed or lost. */
  ghost predicate Evolves(g: Git, h: Git) {
    ValidGit(h) && forall c :: c in g.past ==> c in h.past && h.past[c] == g.past[c]
  }

  function HeadOf(g: Git, w: Worktree): Option<string> {
    match w.head
    case Detached(c) => Some(c)
    case OnBranch(b) => if b in g.branches then Some(g.branches[b]) else None
  }

  function WorktreeHead(g: Git, path: string): Option<string> {
    if path in g.worktrees then HeadOf(g, g.worktrees[path]) else None
  }

  function Tip(g: Git, branch: string): Option<string> {
    if branch in g.branches then Some(g.branches[branch]) else None
  }

  // ---------- rows ----------

  datatype Submission = Submission(commit: string, inScope: bool)

  /** `current` is the head the last inspection saw. */
  datatype Workspace = Workspace(
    change: string, identity: string, base: string, path: string, current: string,
    submitted: Option<Submission>, retired: bool)

  datatype MergeStatus = CLEAN_MERGE | TEXT_CONFLICT | MERGE_ABORTED

  datatype Projection = Projection(
    head: string, target: string, diagnostics: set<string>, isFresh: bool, eligible: bool)

  datatype Integration = Integration(
    change: string, target: string, targetHead: string, candidates: seq<string>,
    branch: string, path: string, head: string, status: MergeStatus, conflicts: set<string>,
    stale: bool, inScope: bool, publication: string, projection: Option<Projection>,
    merged: Option<string>, mergedBy: string, retired: bool)

  datatype Principal = Principal(id: string, kind: string, authorization: string, expiresAt: int)

  /** Memory, and the file both tables are written to together. */
  datatype State = State(
    git: Git, workspaces: map<string, Workspace>, rows: map<string, Integration>,
    saved: map<string, Integration>, savedWorkspaces: map<string, Workspace>)

  datatype Reply =
    | Failed(code: string)
    | Created(row: Integration)
    | Projected(projection: Projection)
    | Merged(commit: string)
    | Observed(status: string)
    | Quiet

  // ---------- building an integration ----------

  /** What Git makes of one merge: the commit it would create, or the unmerged files. */
  datatype Outcome = Clean(commit: string) | Conflict(files: set<string>)

  function Advance(g: Git, branch: string, commit: string, m: string): Git
    requires branch in g.branches
  {
    var head := g.branches[branch];
    g.(past := g.past[m := {m} + (if head in g.past then g.past[head] else {})
                               + (if commit in g.past then g.past[commit] else {})],
       branches := g.branches[branch := m])
  }

  /** `git merge --no-ff`: already contained, merged by a new commit, or refused. */
  function MergeOne(g: Git, branch: string, commit: string, o: Outcome): Option<Git> {
    if branch !in g.branches then None
    else if Contains(g, g.branches[branch], commit) then Some(g)
    else if o.Clean? && commit in g.past && o.commit !in g.past then Some(Advance(g, branch, commit, o.commit))
    else None
  }

  function Unmerged(o: Outcome): set<string> {
    if o.Conflict? then o.files else {}
  }

  function MergeAll(g: Git, branch: string, commits: seq<string>, outcomes: seq<Outcome>, i: nat)
    : (Git, MergeStatus, set<string>)
    requires i <= |commits| == |outcomes|
    decreases |commits| - i
  {
    if i == |commits| then (g, CLEAN_MERGE, {})
    else match MergeOne(g, branch, commits[i], outcomes[i])
      case Some(h) => MergeAll(h, branch, commits, outcomes, i + 1)
      case None =>
        var files := Unmerged(outcomes[i]);
        (g, if files == {} then MERGE_ABORTED else TEXT_CONFLICT, files)
  }

  /** The candidates are workspaces of this repository, each with a submission in scope. */
  ghost predicate Candidates(s: State, ids: seq<string>) {
    && ids != []
    && forall i :: 0 <= i < |ids| ==>
         && ids[i] in s.workspaces && s.workspaces[ids[i]].identity == s.git.identity
         && s.workspaces[ids[i]].submitted.Some? && s.workspaces[ids[i]].submitted.value.inScope
  }

  /** The worktree `git worktree add -b` creates. */
  function WithWorktree(g: Git, branch: string, path: string, at: string): Git {
    g.(branches := g.branches[branch := at],
       worktrees := g.worktrees[path := Worktree(OnBranch(branch), true)])
  }

  function Dirty(g: Git, path: string): Git {
    if path in g.worktrees then g.(worktrees := g.worktrees[path := g.worktrees[path].(clean := false)]) else g
  }

  // ---------- auditing ----------

  /** What the indexer, the design checks and the two executions report. */
  datatype Findings = Findings(
    drcAcceptable: bool, lvsAcceptable: bool, lvsUnknown: bool, buildPasses: bool, testPasses: bool,
    unsupportedFacts: bool, openUnknowns: bool, currentMutated: bool)

  function CheckDiagnostics(f: Findings): set<string> {
    (if f.drcAcceptable then {} else {"DRC_FAILURE"})
    + (if f.lvsAcceptable then {} else if f.lvsUnknown then {"LVS_UNKNOWN"} else {"LVS_MISMATCH"})
    + (if f.buildPasses then {} else {"BUILD_FAILURE"})
    + (if f.testPasses then {} else {"TEST_FAILURE"})
    + (if f.unsupportedFacts then {"UNSUPPORTED_CANONICAL_FACT"} else {})
    + (if f.openUnknowns then {"EVIDENCE_UNKNOWN"} else {})
    + (if f.currentMutated then {"CANDIDATE_MUTATED_CURRENT"} else {})
  }

  function Diagnostics(row: Integration, f: Findings): set<string> {
    (if row.status.TEXT_CONFLICT? then {"TEXT_CONFLICT"}
     else if row.status.MERGE_ABORTED? then {"MERGE_ABORTED"}
     else {})
    + (if row.inScope then {} else {"SCOPE_VIOLATION"})
    + CheckDiagnostics(f)
  }

  function Verdict(row: Integration, f: Findings): Projection {
    Projection(row.head, row.targetHead, Diagnostics(row, f), true, Diagnostics(row, f) == {})
  }

  /** The merge is clean and in scope, and every check came out well. */
  predicate Acceptable(row: Integration, f: Findings) {
    && row.status.CLEAN_MERGE? && row.inScope
    && f.drcAcceptable && f.lvsAcceptable && f.buildPasses && f.testPasses
    && !f.unsupportedFacts && !f.openUnknowns && !f.currentMutated
  }

  /** What each diagnostic says. */
  predicate Shows(row: Integration, f: Findings, d: string) {
    || (d == "TEXT_CONFLICT" && row.status.TEXT_CONFLICT?)
    || (d == "MERGE_ABORTED" && row.status.MERGE_ABORTED?)
    || (d == "SCOPE_VIOLATION" && !row.inScope)
    || CheckShows(f, d)
  }

  predicate CheckShows(f: Findings, d: string) {
    || (d == "DRC_FAILURE" && !f.drcAcceptable)
    || (d == "LVS_UNKNOWN" && !f.lvsAcceptable && f.lvsUnknown)
    || (d == "LVS_MISMATCH" && !f.lvsAcceptable && !f.lvsUnknown)
    || (d == "BUILD_FAILURE" && !f.buildPasses)
    || (d == "TEST_FAILURE" && !f.testPasses)
    || (d == "UNSUPPORTED_CANONICAL_FACT" && f.unsupportedFacts)
    || (d == "EVIDENCE_UNKNOWN" && f.openUnknowns)
    || (d == "CANDIDATE_MUTATED_CURRENT" && f.currentMutated)
  }

  /** Eligibility is given exactly to an acceptable integration; every diagnostic is true and none is missing. */
  lemma {:induction false} VerdictMeaning(row: Integration, f: Findings)
    ensures Verdict(row, f).eligible <==> Acceptable(row, f)
    ensures forall d :: d in Verdict(row, f).diagnostics <==> Shows(row, f, d)
    ensures Verdict(row, f).isFresh
    ensures Verdict(row, f).head == row.head && Verdict(row, f).target == row.targetHead
  {
    forall d { DiagnosticShown(row, f, d); }
    NoProblem(row, f);
    hide Diagnostics, Shows, Acceptable, FirstProblem;
    assert !Acceptable(row, f) ==> FirstProblem(row, f) in Diagnostics(row, f);
    if Diagnostics(row, f) != {} {
      var d :| d in Diagnostics(row, f);
      assert Shows(row, f, d);
    }
  }

  lemma {:induction false} DiagnosticShown(row: Integration, f: Findings, d: string)
    ensures d in Diagnostics(row, f) <==> Shows(row, f, d)
  {
    CheckShown(f, d);
    hide CheckDiagnostics, CheckShows;
  }

  lemma {:induction false} CheckShown(f: Findings, d: string)
    ensures d in CheckDiagnostics(f) <==> CheckShows(f, d)
  {
  }

  lemma {:induction false} NoProblem(row: Integration, f: Findings)
    ensures Acceptable(row, f) ==> forall d :: !Shows(row, f, d)
    ensures !Acceptable(row, f) ==> Shows(row, f, FirstProblem(row, f))
  {
  }

  function FirstProblem(row: Integration, f: Findings): string {
    if row.status.TEXT_CONFLICT? then "TEXT_CONFLICT"
    else if row.status.MERGE_ABORTED? then "MERGE_ABORTED"
    else if !row.inScope then "SCOPE_VIOLATION"
    else if !f.drcAcceptable then "DRC_FAILURE"
    else if !f.lvsAcceptable then (if f.lvsUnknown then "LVS_UNKNOWN" else "LVS_MISMATCH")
    else if !f.buildPasses then "BUILD_FAILURE"
    else if !f.testPasses then "TEST_FAILURE"
    else if f.unsupportedFacts then "UNSUPPORTED_CANONICAL_FACT"
    else if f.openUnknowns then "EVIDENCE_UNKNOWN"
    else "CANDIDATE_MUTATED_CURRENT"
  }

  function Invalidated(row: Integration, reason: string): Integration {
    match row.projection
    case None => row
    case Some(p) => row.(projection := Some(p.(
      isFresh := false, eligible := false, diagnostics := p.diagnostics + {reason})))
  }

  // ---------- the commands ----------

  /** `refusal` is what the scope rules and the rule of one worktree for each task say of a request. */
  datatype Command =
    | Create(id: string, branch: string, path: string, target: string, workspaces: seq<string>,
             outcomes: seq<Outcome>, basesFound: bool)
    | Audit(id: string, available: bool, findings: Option<Findings>)
    | Project(id: string)
    | Merge(id: string, principal: Principal, now: int)
    | Observe(id: string, available: bool, receipt: Option<string>)
    | AddWorkspace(id: string, change: string, base: string, branch: string, path: string, refusal: Option<string>)
    | Inspect(id: string, trunk: Option<string>)
    | Submit(id: string, trunk: Option<string>, inScope: bool)
    | RetireWorkspace(id: string, trunk: Option<string>, removed: bool)
    | RetireIntegration(id: string, abort: bool, aborted: bool, removed: bool)
    | Outside(git: Git)
    | Restart

  function Put(s: State, id: string, row: Integration): State {
    s.(rows := s.rows[id := row])
  }

  function Save(s: State): State {
    s.(saved := s.rows, savedWorkspaces := s.workspaces)
  }

  function Commits(s: State, ids: seq<string>): (r: seq<string>)
    requires forall i :: 0 <= i < |ids| ==> ids[i] in s.workspaces && s.workspaces[ids[i]].submitted.Some?
    ensures |r| == |ids|
  {
    seq(|ids|, i requires 0 <= i < |ids| => s.workspaces[ids[i]].submitted.value.commit)
  }

  /** The checks that precede any change to the repository. */
  function CreateRefusal(s: State, target: string, ids: seq<string>): Option<string> {
    if target !in s.git.branches then Some("MISSING_BRANCH")
    else if ids == [] then Some("CANDIDATE_REQUIRED")
    else if exists i :: 0 <= i < |ids| && ids[i] !in s.workspaces then Some("MISSING_WORKTREE")
    else if exists i :: 0 <= i < |ids| && s.workspaces[ids[i]].identity != s.git.identity then
      Some("REPOSITORY_MISMATCH")
    else if exists i :: 0 <= i < |ids| && s.workspaces[ids[i]].submitted.None? then Some("UNCOMMITTED")
    else if exists i :: 0 <= i < |ids| && !s.workspaces[ids[i]].submitted.value.inScope then Some("SCOPE_VIOLATION")
    else None
  }

  function StepCreate(s: State, c: Command): (State, Reply)
    requires c.Create? && |c.outcomes| == |c.workspaces|
  {
    var refusal := CreateRefusal(s, c.target, c.workspaces);
    if refusal.Some? then (s, Failed(refusal.value))
    else if c.branch in s.git.branches || c.path in s.git.worktrees then (s, Failed("GIT_COMMAND_FAILED"))
    else
      var at := s.git.branches[c.target];
      var commits := Commits(s, c.workspaces);
      var (g, status, files) := MergeAll(WithWorktree(s.git, c.branch, c.path, at), c.branch, commits, c.outcomes, 0);
      var g' := if status.CLEAN_MERGE? then g else Dirty(g, c.path);
      if !c.basesFound || c.branch !in g'.branches then (s.(git := g'), Failed("GIT_COMMAND_FAILED"))
      else
        var row := Integration(
          s.workspaces[c.workspaces[0]].change, c.target, at, commits, c.branch, c.path,
          g'.branches[c.branch], status, files,
          exists i :: 0 <= i < |c.workspaces| && s.workspaces[c.workspaces[i]].base != at,
          true, "NOT_PUBLISHED", None, None, "", false);
        (Save(Put(s.(git := g'), c.id, row)), Created(row))
  }

  function StepAudit(s: State, c: Command): (State, Reply)
    requires c.Audit?
  {
    if c.id !in s.rows then (s, Failed("MISSING_INTEGRATION"))
    else if !c.available then (s, Failed("INTEGRATION_AUTHORITY_UNAVAILABLE"))
    else
      var row := s.rows[c.id];
      var head := WorktreeHead(s.git, row.path);
      if row.path !in s.git.worktrees then (s, Failed("GIT_COMMAND_FAILED"))
      else if !s.git.worktrees[row.path].clean then (s, Failed("DIRTY_WORKTREE"))
      else if head.None? then (s, Failed("GIT_COMMAND_FAILED"))
      else if head.value != row.head then
        (Put(s, c.id, Invalidated(row, "STALE_INTEGRATION_HEAD")), Failed("STALE_INTEGRATION_HEAD"))
      else if row.target !in s.git.branches then (s, Failed("GIT_COMMAND_FAILED"))
      else if s.git.branches[row.target] != row.targetHead then
        (Put(s, c.id, Invalidated(row, "STALE_TARGET_HEAD")), Failed("STALE_TARGET_HEAD"))
      else if c.findings.None? then (s, Failed("INTEGRATION_AUDIT_FAILED"))
      else
        var p := Verdict(row, c.findings.value);
        (Save(Put(s, c.id, row.(projection := Some(p)))), Projected(p))
  }

  function StepProject(s: State, c: Command): (State, Reply)
    requires c.Project?
  {
    if c.id !in s.rows then (s, Failed("MISSING_INTEGRATION"))
    else
      var row := s.rows[c.id];
      var p := Projection(row.head, row.targetHead, {"TRUSTED_INTEGRATION_AUDIT_REQUIRED"}, false, false);
      (Save(Put(s, c.id, row.(projection := Some(p)))), Projected(p))
  }

  predicate OwnerNow(p: Principal, now: int) {
    p.kind == "LOCAL_OWNER" && p.authorization == "OWNER" && p.expiresAt > now
  }

  /** `git merge --ff-only` run on the checked-out target branch. */
  function FastForward(g: Git, target: string, tip: string): Option<Git>
    requires target in g.branches
  {
    if Contains(g, g.branches[target], tip) then Some(g)
    else if Contains(g, tip, g.branches[target]) then Some(g.(branches := g.branches[target := tip]))
    else None
  }

  function StepMerge(s: State, c: Command): (State, Reply)
    requires c.Merge?
  {
    if c.id !in s.rows then (s, Failed("MISSING_INTEGRATION"))
    else
      var row := s.rows[c.id];
      if row.projection.None? || !row.projection.value.eligible then (s, Failed("MERGE_NOT_ELIGIBLE"))
      else if !OwnerNow(c.principal, c.now) then (s, Failed("OWNER_AUTHORIZATION_REQUIRED"))
      else if s.git.root.head != OnBranch(row.target) || !s.git.root.clean then
        (s, Failed("HUMAN_WORKTREE_UNAVAILABLE"))
      else if Tip(s.git, row.target) != Some(row.targetHead) then
        (Save(Put(s, c.id, Invalidated(row, "STALE_TARGET_HEAD"))), Failed("STALE_TARGET_HEAD"))
      else
        var head := WorktreeHead(s.git, row.path);
        if head.None? then (s, Failed("GIT_COMMAND_FAILED"))
        else if head.value != row.head || row.projection.value.head != head.value
                || row.projection.value.target != row.targetHead then
          (Save(Put(s, c.id, Invalidated(row, "STALE_INTEGRATION_HEAD"))), Failed("STALE_INTEGRATION_HEAD"))
        else if row.branch !in s.git.branches then (s, Failed("GIT_COMMAND_FAILED"))
        else match FastForward(s.git, row.target, s.git.branches[row.branch])
          case None => (s, Failed("GIT_COMMAND_FAILED"))
          case Some(g) =>
            var merged := g.branches[row.target];
            (Save(Put(s.(git := g), c.id, row.(
              merged := Some(merged), mergedBy := c.principal.id,
              publication := "PENDING_INDEXER_OBSERVATION"))), Merged(merged))
  }

  function StepObserve(s: State, c: Command): (State, Reply)
    requires c.Observe?
  {
    if c.id !in s.rows then (s, Failed("MISSING_INTEGRATION"))
    else
      var row := s.rows[c.id];
      if row.publication != "PENDING_INDEXER_OBSERVATION" then (s, Failed("OBSERVATION_NOT_PENDING"))
      else if !c.available then (s, Failed("INTEGRATION_AUTHORITY_UNAVAILABLE"))
      else if HeadOf(s.git, s.git.root).None? then (s, Failed("GIT_COMMAND_FAILED"))
      else if HeadOf(s.git, s.git.root) != row.merged then (s, Failed("MERGED_HEAD_CHANGED"))
      else if c.receipt.None? then (s, Failed("OBSERVATION_FAILED"))
      else (Save(Put(s, c.id, row.(publication := c.receipt.value))), Observed(c.receipt.value))
  }

  // ---------- agent workspaces ----------

  function PutWorkspace(s: State, id: string, w: Workspace): State {
    s.(workspaces := s.workspaces[id := w])
  }

  function Unlinked(g: Git, path: string): Git {
    g.(worktrees := g.worktrees - {path})
  }

  function StepAddWorkspace(s: State, c: Command): (State, Reply)
    requires c.AddWorkspace?
  {
    if s.git.root.head.Detached? then (s, Failed("DETACHED_HEAD"))
    else if c.base !in s.git.past then (s, Failed("INVALID_BASE_COMMIT"))
    else if c.refusal.Some? then (s, Failed(c.refusal.value))
    else if c.branch in s.git.branches || c.path in s.git.worktrees then (s, Failed("GIT_COMMAND_FAILED"))
    else
      var w := Workspace(c.change, s.git.identity, c.base, c.path, c.base, None, false);
      (Save(PutWorkspace(s.(git := WithWorktree(s.git, c.branch, c.path, c.base)), c.id, w)), Quiet)
  }

  /** `trunk` is the default branch, None when there is none; the error, if any, comes before the save. */
  function Inspected(s: State, id: string, trunk: Option<string>): (State, Option<string>) {
    if id !in s.workspaces then (s, Some("MISSING_WORKTREE"))
    else
      var w := s.workspaces[id];
      if w.retired then (s, None)
      else if w.path !in s.git.worktrees then (Save(s), None)
      else
        var head := WorktreeHead(s.git, w.path);
        if head.None? then (s, Some("GIT_COMMAND_FAILED"))
        else if trunk.None? then (s, Some("MISSING_BRANCH"))
        else if trunk.value !in s.git.branches then (s, Some("GIT_COMMAND_FAILED"))
        else (Save(PutWorkspace(s, id, w.(current := head.value))), None)
  }

  /**
   An inspection; also all that listing a change, opening a session, branch evidence and
   an execution request do to these tables.
   */
  function StepInspect(s: State, c: Command): (State, Reply)
    requires c.Inspect?
  {
    var (t, error) := Inspected(s, c.id, c.trunk);
    (t, if error.Some? then Failed(error.value) else Quiet)
  }

  /** The worktree of a workspace that is not retired. */
  function Live(s: State, id: string): Option<Worktree> {
    if id in s.workspaces && !s.workspaces[id].retired && s.workspaces[id].path in s.git.worktrees then
      Some(s.git.worktrees[s.workspaces[id].path])
    else None
  }

  function StepSubmit(s: State, c: Command): (State, Reply)
    requires c.Submit?
  {
    var (t, error) := Inspected(s, c.id, c.trunk);
    if error.Some? then (t, Failed(error.value))
    else
      var w, live := t.workspaces[c.id], Live(t, c.id);
      if live.Some? && live.value.head.Detached? then (t, Failed("DETACHED_HEAD"))
      else if live.Some? && !live.value.clean then (t, Failed("DIRTY_WORKTREE"))
      else if w.current == w.base then (t, Failed("UNCOMMITTED"))
      else if w.path !in t.git.worktrees || !Contains(t.git, w.current, w.base) then
        (t, Failed("BASE_IDENTITY_MISMATCH"))
      else
        var next := w.(submitted := Some(Submission(w.current, c.inScope)), retired := false);
        (Save(PutWorkspace(t, c.id, next)), Quiet)
  }

  function StepRetireWorkspace(s: State, c: Command): (State, Reply)
    requires c.RetireWorkspace?
  {
    var (t, error) := Inspected(s, c.id, c.trunk);
    if error.Some? then (t, Failed(error.value))
    else
      var w, live := t.workspaces[c.id], Live(t, c.id);
      if w.retired then (t, Quiet)
      else if live.Some? && live.value.head.OnBranch? && !live.value.clean then (t, Failed("DIRTY_WORKTREE"))
      else if live.None? || !c.removed then (t, Failed("GIT_COMMAND_FAILED"))
      else (Save(PutWorkspace(t.(git := Unlinked(t.git, w.path)), c.id, w.(retired := true))), Quiet)
  }

  /** The worktree goes, the branch stays; an unfinished merge is aborted first when asked. */
  function StepRetireIntegration(s: State, c: Command): (State, Reply)
    requires c.RetireIntegration?
  {
    if c.id !in s.rows then (s, Failed("MISSING_INTEGRATION"))
    else
      var row := s.rows[c.id];
      if row.retired then (s, Quiet)
      else if row.path !in s.git.worktrees then (s, Failed("MISSING_WORKTREE"))
      else
        var w := s.git.worktrees[row.path];
        if !w.clean && !c.abort then (s, Failed("DIRTY_WORKTREE"))
        else if !w.clean && !c.aborted then (s, Failed("MERGE_ABORTED"))
        else
          var t := s.(git := s.git.(worktrees := s.git.worktrees[row.path := w.(clean := true)]));
          var head := HeadOf(t.git, w);
          if head.None? then (t, Failed("GIT_COMMAND_FAILED"))
          else if head.value != row.head then (t, Failed("WORKTREE_HEAD_MISMATCH"))
          else if !c.removed then (t, Failed("GIT_COMMAND_FAILED"))
          else (Save(Put(t.(git := Unlinked(t.git, row.path)), c.id, row.(retired := true))), Quiet)
  }

  ghost predicate Legal(s: State, c: Command) {
    && (c.Create? ==> |c.outcomes| == |c.workspaces|)
    && (c.Outside? ==> Evolves(s.git, c.git))
  }

  /** One command, or one move made behind the manager's back. */
  function Step(s: State, c: Command): (State, Reply)
    requires c.Create? ==> |c.outcomes| == |c.workspaces|
  {
    match c
    case Create(_, _, _, _, _, _, _) => StepCreate(s, c)
    case Audit(_, _, _) => StepAudit(s, c)
    case Project(_) => StepProject(s, c)
    case Merge(_, _, _) => StepMerge(s, c)
    case Observe(_, _, _) => StepObserve(s, c)
    case AddWorkspace(_, _, _, _, _, _) => StepAddWorkspace(s, c)
    case Inspect(_, _) => StepInspect(s, c)
    case Submit(_, _, _) => StepSubmit(s, c)
    case RetireWorkspace(_, _, _) => StepRetireWorkspace(s, c)
    case RetireIntegration(_, _, _, _) => StepRetireIntegration(s, c)
    case Outside(g) => (s.(git := g), Quiet)
    case Restart => (s.(rows := s.saved, workspaces := s.savedWorkspaces), Quiet)
  }

  // ---------- what every step keeps ----------

  /** A verdict of eligibility is about exactly these heads, and the merge was clean. */
  ghost predicate Sound(g: Git, row: Integration) {
    && (row.status.CLEAN_MERGE? ==> HoldsAll(g, row.head, row.targetHead, row.candidates))
    && (row.projection.Some? && row.projection.value.eligible ==>
          && row.status.CLEAN_MERGE? && row.inScope
          && row.projection.value.diagnostics == {}
          && row.projection.value.head == row.head && row.projection.value.target == row.targetHead)
  }

  ghost predicate HoldsAll(g: Git, head: string, target: string, candidates: seq<string>) {
    Contains(g, head, target) && forall i :: 0 <= i < |candidates| ==> Contains(g, head, candidates[i])
  }

  ghost predicate Kept(s: State) {
    && ValidGit(s.git)
    && (forall id :: id in s.rows ==> Sound(s.git, s.rows[id]))
    && (forall id :: id in s.saved ==> Sound(s.git, s.saved[id]))
  }

  lemma {:induction false} SoundSurvives(g: Git, h: Git, row: Integration)
    requires Sound(g, row) && Evolves(g, h)
    ensures Sound(h, row)
  {
  }

  lemma {:induction false} KeptOnGit(s: State, h: Git)
    requires Kept(s) && Evolves(s.git, h)
    ensures Kept(s.(git := h))
  {
    hide Sound, ValidGit;
    assert ValidGit(h);
    forall id | id in s.rows ensures Sound(h, s.rows[id]) { SoundSurvives(s.git, h, s.rows[id]); }
    forall id | id in s.saved ensures Sound(h, s.saved[id]) { SoundSurvives(s.git, h, s.saved[id]); }
  }

  lemma {:induction false} EvolvesTransitive(f: Git, g: Git, h: Git)
    requires Evolves(f, g) && Evolves(g, h)
    ensures Evolves(f, h)
  {
  }

  lemma {:induction false} AdvanceEvolves(g: Git, branch: string, commit: string, m: string)
    requires ValidGit(g) && branch in g.branches && commit in g.past && m !in g.past
    ensures Evolves(g, Advance(g, branch, commit, m))
    ensures Contains(Advance(g, branch, commit, m), m, g.branches[branch])
    ensures Contains(Advance(g, branch, commit, m), m, commit)
  {
    var h := Advance(g, branch, commit, m);
    assert h.past.Keys == g.past.Keys + {m};
    forall a, b | Contains(h, a, b) ensures b in h.past && h.past[b] <= h.past[a] {
      if a == m && b != m {
        assert Contains(g, g.branches[branch], b) || Contains(g, commit, b);
      } else if a != m {
        assert Contains(g, a, b);
      }
    }
    forall a, b | Contains(h, a, b) && Contains(h, b, a) ensures a == b {
      if a != m && b == m { assert Contains(g, a, b); }
      if a == m && b != m { assert Contains(g, b, a); }
      if a != m && b != m { assert Contains(g, a, b) && Contains(g, b, a); }
    }
  }

  /** The merge loop only adds commits, moves only its own branch, and on success holds everything. */
  lemma {:induction false} MergeAllKeeps(g: Git, branch: string, commits: seq<string>, outcomes: seq<Outcome>, i: nat)
    requires ValidGit(g) && branch in g.branches && i <= |commits| == |outcomes|
    requires forall j :: 0 <= j < i ==> Contains(g, g.branches[branch], commits[j])
    ensures var (h, status, files) := MergeAll(g, branch, commits, outcomes, i);
            && Evolves(g, h) && branch in h.branches
            && Contains(h, h.branches[branch], g.branches[branch])
            && (status.CLEAN_MERGE? ==>
                  forall j :: 0 <= j < |commits| ==> Contains(h, h.branches[branch], commits[j]))
            && (forall b :: b in g.branches && b != branch ==> b in h.branches && h.branches[b] == g.branches[b])
            && h.worktrees == g.worktrees && h.root == g.root && h.identity == g.identity
    decreases |commits| - i
  {
    if i < |commits| {
      match MergeOne(g, branch, commits[i], outcomes[i])
      case None =>
      case Some(h) =>
        MergeOneKeeps(g, branch, commits[i], outcomes[i], h);
        forall j | 0 <= j < i + 1 ensures Contains(h, h.branches[branch], commits[j]) {
        }
        MergeAllKeeps(h, branch, commits, outcomes, i + 1);
        var (k, _, _) := MergeAll(h, branch, commits, outcomes, i + 1);
        EvolvesTransitive(g, h, k);
    }
  }

  lemma {:induction false} MergeOneKeeps(g: Git, branch: string, commit: string, o: Outcome, h: Git)
    requires ValidGit(g) && branch in g.branches && MergeOne(g, branch, commit, o) == Some(h)
    ensures Evolves(g, h) && branch in h.branches
    ensures Contains(h, h.branches[branch], g.branches[branch]) && Contains(h, h.branches[branch], commit)
    ensures forall b :: b in g.branches && b != branch ==> b in h.branches && h.branches[b] == g.branches[b]
    ensures forall c :: Contains(g, g.branches[branch], c) ==> Contains(h, g.branches[branch], c)
    ensures h.worktrees == g.worktrees && h.root == g.root && h.identity == g.identity
  {
    if !Contains(g, g.branches[branch], commit) {
      AdvanceEvolves(g, branch, commit, o.commit);
    }
  }

  lemma {:induction false} PutKeeps(s: State, id: string, row: Integration)
    requires Kept(s) && Sound(s.git, row)
    ensures Kept(Put(s, id, row)) && Kept(Save(Put(s, id, row)))
  {
    hide Sound, ValidGit;
  }

  lemma {:induction false} InvalidatedIsSound(g: Git, row: Integration, reason: string)
    requires Sound(g, row)
    ensures Sound(g, Invalidated(row, reason))
  {
  }

  lemma {:induction false} CreateKeeps(s: State, c: Command)
    requires Kept(s) && c.Create? && |c.outcomes| == |c.workspaces|
    ensures Kept(StepCreate(s, c).0) && Evolves(s.git, StepCreate(s, c).0.git)
    ensures forall b :: b in s.git.branches ==> Tip(StepCreate(s, c).0.git, b) == Tip(s.git, b)
  {
    hide Kept, ValidGit, Evolves, MergeAll, Sound, Contains;
    var (s', reply) := StepCreate(s, c);
    SelfEvolves(s);
    if CreateRefusal(s, c.target, c.workspaces).None? && c.branch !in s.git.branches && c.path !in s.git.worktrees {
      var at := s.git.branches[c.target];
      var commits := Commits(s, c.workspaces);
      var g0 := WithWorktree(s.git, c.branch, c.path, at);
      WithWorktreeEvolves(s.git, c.branch, c.path, at);
      var (g, status, files) := MergeAll(g0, c.branch, commits, c.outcomes, 0);
      MergeAllKeeps(g0, c.branch, commits, c.outcomes, 0);
      var g' := if status.CLEAN_MERGE? then g else Dirty(g, c.path);
      DirtyEvolves(g, c.path);
      EvolvesTransitive(s.git, g0, g);
      EvolvesTransitive(s.git, g, g');
      KeptOnGit(s, g');
      if reply.Created? {
        NewRowIsSound(g', reply.row);
        PutKeeps(s.(git := g'), c.id, reply.row);
      }
    }
  }

  lemma {:induction false} NewRowIsSound(g: Git, row: Integration)
    requires row.projection.None?
    requires row.status.CLEAN_MERGE? ==> HoldsAll(g, row.head, row.targetHead, row.candidates)
    ensures Sound(g, row)
  {
  }

  lemma {:induction false} SelfEvolves(s: State)
    requires Kept(s)
    ensures ValidGit(s.git) && Evolves(s.git, s.git)
  {
  }

  lemma {:induction false} WithWorktreeEvolves(g: Git, branch: string, path: string, at: string)
    requires ValidGit(g) && branch !in g.branches && at in g.past
    ensures ValidGit(WithWorktree(g, branch, path, at)) && Evolves(g, WithWorktree(g, branch, path, at))
  {
    var h := WithWorktree(g, branch, path, at);
    assert forall a, b :: Contains(h, a, b) <==> Contains(g, a, b);
  }

  lemma {:induction false} DirtyEvolves(g: Git, path: string)
    requires ValidGit(g)
    ensures Evolves(g, g) && Evolves(g, Dirty(g, path))
    ensures Dirty(g, path).branches == g.branches && Dirty(g, path).past == g.past
  {
    var h := Dirty(g, path);
    assert forall a, b :: Contains(h, a, b) <==> Contains(g, a, b);
  }

  lemma {:induction false} AuditKeeps(s: State, c: Command)
    requires Kept(s) && c.Audit?
    ensures Kept(StepAudit(s, c).0) && StepAudit(s, c).0.git == s.git
  {
    hide ValidGit, Contains;
    if c.id in s.rows {
      var row := s.rows[c.id];
      InvalidatedIsSound(s.git, row, "STALE_INTEGRATION_HEAD");
      InvalidatedIsSound(s.git, row, "STALE_TARGET_HEAD");
      PutKeeps(s, c.id, Invalidated(row, "STALE_INTEGRATION_HEAD"));
      PutKeeps(s, c.id, Invalidated(row, "STALE_TARGET_HEAD"));
      if c.findings.Some? {
        VerdictIsSound(s.git, row, c.findings.value);
        PutKeeps(s, c.id, row.(projection := Some(Verdict(row, c.findings.value))));
      }
    }
  }

  lemma {:induction false} VerdictIsSound(g: Git, row: Integration, f: Findings)
    requires Sound(g, row)
    ensures Sound(g, row.(projection := Some(Verdict(row, f))))
    ensures Verdict(row, f).eligible <==> Acceptable(row, f)
  {
    VerdictMeaning(row, f);
    hide Shows;
  }

  lemma {:induction false} ProjectKeeps(s: State, c: Command)
    requires Kept(s) && c.Project?
    ensures Kept(StepProject(s, c).0) && StepProject(s, c).0.git == s.git
  {
    hide ValidGit, Contains;
    if c.id in s.rows {
      PutKeeps(s, c.id, StepProject(s, c).0.rows[c.id]);
    }
  }

  lemma {:induction false} ObserveKeeps(s: State, c: Command)
    requires Kept(s) && c.Observe?
    ensures Kept(StepObserve(s, c).0) && StepObserve(s, c).0.git == s.git
  {
    hide ValidGit, Contains;
    if c.id in s.rows && c.receipt.Some? {
      PutKeeps(s, c.id, s.rows[c.id].(publication := c.receipt.value));
    }
  }

  lemma {:induction false} FastForwardEvolves(g: Git, target: string, tip: string, h: Git)
    requires ValidGit(g) && target in g.branches && tip in g.past && FastForward(g, target, tip) == Some(h)
    ensures Evolves(g, h)
  {
    assert forall a, b :: Contains(h, a, b) <==> Contains(g, a, b);
  }

  lemma {:induction false} TipIsACommit(g: Git, branch: string)
    requires ValidGit(g) && branch in g.branches
    ensures g.branches[branch] in g.past
  {
  }

  lemma {:induction false} SameRowIsSound(g: Git, row: Integration, next: Integration)
    requires Sound(g, row)
    requires next == row.(merged := next.merged, mergedBy := next.mergedBy, publication := next.publication,
                          retired := next.retired)
    ensures Sound(g, next)
  {
  }

  lemma {:induction false} MergeKeeps(s: State, c: Command)
    requires Kept(s) && c.Merge?
    ensures Kept(StepMerge(s, c).0) && Evolves(s.git, StepMerge(s, c).0.git)
  {
    hide ValidGit, Contains, Evolves, Sound;
    SelfEvolves(s);
    var (s', reply) := StepMerge(s, c);
    if c.id in s.rows {
      var row := s.rows[c.id];
      assert Sound(s.git, row);
      InvalidatedIsSound(s.git, row, "STALE_TARGET_HEAD");
      InvalidatedIsSound(s.git, row, "STALE_INTEGRATION_HEAD");
      PutKeeps(s, c.id, Invalidated(row, "STALE_TARGET_HEAD"));
      PutKeeps(s, c.id, Invalidated(row, "STALE_INTEGRATION_HEAD"));
      if reply.Merged? {
        var tip := s.git.branches[row.branch];
        TipIsACommit(s.git, row.branch);
        FastForwardEvolves(s.git, row.target, tip, s'.git);
        KeptOnGit(s, s'.git);
        SoundSurvives(s.git, s'.git, row);
        SameRowIsSound(s'.git, row, s'.rows[c.id]);
        PutKeeps(s.(git := s'.git), c.id, s'.rows[c.id]);
      }
    }
  }

  /** Only worktrees come or go: every commit and branch stays. */
  lemma {:induction false} RewiredEvolves(g: Git, h: Git)
    requires ValidGit(g) && h == g.(worktrees := h.worktrees)
    ensures Evolves(g, h)
  {
    assert forall a, b :: Contains(h, a, b) <==> Contains(g, a, b);
  }

  lemma {:induction false} InspectedKeeps(s: State, id: string, trunk: Option<string>)
    ensures var (t, error) := Inspected(s, id, trunk);
            && t.git == s.git && t.rows == s.rows && (t.saved == s.saved || t.saved == s.rows)
            && (error.None? ==> id in t.workspaces)
  {
    hide WorktreeHead;
  }

  lemma {:induction false} SameTablesKeep(s: State, t: State)
    requires Kept(s) && t.git == s.git && t.rows == s.rows && (t.saved == s.saved || t.saved == s.rows)
    ensures Kept(t)
  {
    hide Sound, ValidGit;
  }

  lemma {:induction false} WorkspaceStepKeeps(s: State, c: Command)
    requires Kept(s) && IsWorkspaceCommand(c)
    ensures Kept(Step(s, c).0) && Evolves(s.git, Step(s, c).0.git)
    ensures forall b :: b in s.git.branches ==> Tip(Step(s, c).0.git, b) == Tip(s.git, b)
  {
    hide Kept, ValidGit, Evolves, Sound, Inspected, Contains;
    SelfEvolves(s);
    var t := Step(s, c).0;
    if c.AddWorkspace? {
      var h := WithWorktree(s.git, c.branch, c.path, c.base);
      if t != s {
        WithWorktreeEvolves(s.git, c.branch, c.path, c.base);
        KeptOnGit(s, h);
        SameTablesKeep(s.(git := h), t);
      }
    } else {
      InspectedKeeps(s, c.id, c.trunk);
      if t.git != s.git {
        RewiredEvolves(s.git, t.git);
        KeptOnGit(s, t.git);
      }
      SameTablesKeep(s.(git := t.git), t);
    }
  }

  lemma {:induction false} RetireIntegrationKeeps(s: State, c: Command)
    requires Kept(s) && c.RetireIntegration?
    ensures Kept(StepRetireIntegration(s, c).0) && Evolves(s.git, StepRetireIntegration(s, c).0.git)
    ensures forall b :: b in s.git.branches ==> Tip(StepRetireIntegration(s, c).0.git, b) == Tip(s.git, b)
  {
    RetirementShape(s, c);
    RetirementRewires(s, c);
    var t := StepRetireIntegration(s, c).0;
    hide StepRetireIntegration, ValidGit, Evolves, Sound, Contains, HeadOf;
    SelfEvolves(s);
    RewiredEvolves(s.git, t.git);
    KeptOnGit(s, t.git);
    if t != s.(git := t.git) {
      var row := s.rows[c.id];
      assert Sound(t.git, row);
      SameRowIsSound(t.git, row, row.(retired := true));
      PutKeeps(s.(git := t.git), c.id, row.(retired := true));
    }
  }

  lemma {:induction false} RetirementRewires(s: State, c: Command)
    requires c.RetireIntegration?
    ensures var h := StepRetireIntegration(s, c).0.git; h == s.git.(worktrees := h.worktrees)
  {
    hide HeadOf;
  }

  lemma {:induction false} StepKeeps(s: State, c: Command)
    requires Kept(s) && Legal(s, c)
    ensures Kept(Step(s, c).0) && Evolves(s.git, Step(s, c).0.git)
  {
    hide StepCreate, StepAudit, StepProject, StepMerge, StepObserve, StepAddWorkspace, StepInspect, StepSubmit,
      StepRetireWorkspace, StepRetireIntegration, Evolves, ValidGit, Sound;
    SelfEvolves(s);
    if IsWorkspaceCommand(c) {
      WorkspaceStepKeeps(s, c);
      return;
    }
    match c
    case Create(_, _, _, _, _, _, _) => CreateKeeps(s, c);
    case Audit(_, _, _) => AuditKeeps(s, c);
    case Project(_) => ProjectKeeps(s, c);
    case Merge(_, _, _) => MergeKeeps(s, c);
    case Observe(_, _, _) => ObserveKeeps(s, c);
    case RetireIntegration(_, _, _, _) => RetireIntegrationKeeps(s, c);
    case Outside(g) => KeptOnGit(s, g);
    case Restart =>
  }

  // ---------- whole runs ----------

  ghost predicate Initial(s: State) {
    ValidGit(s.git) && s.rows == map[] && s.saved == map[] && s.workspaces == s.savedWorkspaces
  }

  ghost predicate WellFormed(cmds: seq<Command>) {
    forall k :: 0 <= k < |cmds| ==> cmds[k].Create? ==> |cmds[k].outcomes| == |cmds[k].workspaces|
  }

  ghost function StateAt(s0: State, cmds: seq<Command>, n: nat): State
    requires WellFormed(cmds) && n <= |cmds|
  {
    if n == 0 then s0 else Step(StateAt(s0, cmds, n - 1), cmds[n - 1]).0
  }

  /** Any commands in any order, with Git moved by others anywhere in between. */
  ghost predicate Run(s0: State, cmds: seq<Command>) {
    && Initial(s0) && WellFormed(cmds)
    && forall k :: 0 <= k < |cmds| ==> Legal(StateAt(s0, cmds, k), cmds[k])
  }

  lemma {:induction false} RunKeeps(s0: State, cmds: seq<Command>, n: nat)
    requires Run(s0, cmds) && n <= |cmds|
    ensures Kept(StateAt(s0, cmds, n))
  {
    hide Step, Legal;
    if n > 0 {
      RunKeeps(s0, cmds, n - 1);
      assert Legal(StateAt(s0, cmds, n - 1), cmds[n - 1]);
      StepKeeps(StateAt(s0, cmds, n - 1), cmds[n - 1]);
    }
  }

  /** The heads a verdict of eligibility speaks about. */
  datatype Subject = Subject(id: string, target: string, targetHead: string, head: string)

  predicate Vouches(rows: map<string, Integration>, j: Subject) {
    && j.id in rows
    && rows[j.id].projection.Some? && rows[j.id].projection.value.eligible
    && rows[j.id].target == j.target && rows[j.id].targetHead == j.targetHead && rows[j.id].head == j.head
  }

  /** This command is an audit that finds nothing wrong while Git stands at exactly these heads. */
  predicate PassesNow(s: State, c: Command, j: Subject) {
    && c.Audit? && c.id == j.id && j.id in s.rows
    && c.findings.Some? && Acceptable(s.rows[j.id], c.findings.value)
    && StepAudit(s, c).1 == Projected(Verdict(s.rows[j.id], c.findings.value))
    && WorktreeHead(s.git, s.rows[j.id].path) == Some(j.head)
    && s.git.worktrees[s.rows[j.id].path].clean
    && Tip(s.git, j.target) == Some(j.targetHead)
  }

  /** Git has exactly the two heads the row names, and its worktree is clean. */
  predicate StandsAtItsHeads(g: Git, row: Integration) {
    && WorktreeHead(g, row.path) == Some(row.head) && g.worktrees[row.path].clean
    && Tip(g, row.target) == Some(row.targetHead)
  }

  // ---------- the shape of each step ----------

  /** A creation changes Git alone, or adds one row without a verdict and saves. */
  lemma {:induction false} CreateShape(s: State, c: Command)
    requires c.Create? && |c.outcomes| == |c.workspaces|
    ensures var (t, reply) := StepCreate(s, c);
            match reply
            case Created(row) => row.projection.None? && t == Save(Put(s.(git := t.git), c.id, row))
            case Failed(_) => t == s.(git := t.git)
            case _ => false
  {
    hide MergeAll, CreateRefusal, Commits, WithWorktree, Dirty;
  }

  /** The row of a new integration. */
  ghost predicate CreatedFrom(s: State, h: Git, c: Command, row: Integration) {
    && c.Create? && Candidates(s, c.workspaces)
    && row.change == s.workspaces[c.workspaces[0]].change && row.target == c.target
    && Tip(s.git, c.target) == Some(row.targetHead)
    && |row.candidates| == |c.workspaces|
    && (forall i :: 0 <= i < |c.workspaces| ==>
          row.candidates[i] == s.workspaces[c.workspaces[i]].submitted.value.commit)
    && row.branch == c.branch && row.path == c.path && Tip(h, c.branch) == Some(row.head)
    && (row.stale <==> exists i :: 0 <= i < |c.workspaces| && s.workspaces[c.workspaces[i]].base != row.targetHead)
    && row.inScope && row.publication == "NOT_PUBLISHED" && row.projection.None? && row.merged.None? && !row.retired
  }

  lemma {:induction false} CandidatesMeaning(s: State, target: string, ids: seq<string>)
    ensures CreateRefusal(s, target, ids).None? <==> target in s.git.branches && Candidates(s, ids)
  {
  }

  /** An integration is created from candidates in order alone, and its row says what they were. */
  lemma {:induction false} CreateMeaning(s: State, c: Command)
    requires c.Create? && |c.outcomes| == |c.workspaces|
    ensures var (t, reply) := StepCreate(s, c); reply.Created? ==>
              && Candidates(s, c.workspaces) && CreatedFrom(s, t.git, c, reply.row)
              && t.rows == s.rows[c.id := reply.row] && t.saved == t.rows && t.workspaces == s.workspaces
  {
    CandidatesMeaning(s, c.target, c.workspaces);
    hide MergeAll, CreateRefusal, Dirty, WithWorktree;
  }

  /** An audit stores and saves its verdict, or withdraws the old one in memory, or changes nothing. */
  lemma {:induction false} AuditShape(s: State, c: Command)
    requires c.Audit?
    ensures var (t, reply) := StepAudit(s, c);
            match reply
            case Projected(p) =>
              && c.id in s.rows && c.findings.Some? && p == Verdict(s.rows[c.id], c.findings.value)
              && t == Save(Put(s, c.id, s.rows[c.id].(projection := Some(p))))
              && StandsAtItsHeads(s.git, s.rows[c.id])
            case Failed(code) =>
              if code in {"STALE_INTEGRATION_HEAD", "STALE_TARGET_HEAD"} then
                c.id in s.rows && t == Put(s, c.id, Invalidated(s.rows[c.id], code))
              else t == s
            case _ => false
  {
    hide Verdict, Invalidated, HeadOf;
  }

  /** Exactly these audits give a verdict, and it says all that is wrong. */
  lemma {:induction false} AuditMeaning(s: State, c: Command)
    requires c.Audit?
    ensures var (t, reply) := StepAudit(s, c);
      && (reply.Projected? <==>
            c.available && c.id in s.rows && c.findings.Some? && StandsAtItsHeads(s.git, s.rows[c.id]))
      && (reply.Projected? ==>
            && t == Save(Put(s, c.id, s.rows[c.id].(projection := Some(reply.projection))))
            && (reply.projection.eligible <==> Acceptable(s.rows[c.id], c.findings.value))
            && forall d :: d in reply.projection.diagnostics <==> Shows(s.rows[c.id], c.findings.value, d))
  {
    if c.id in s.rows && c.findings.Some? {
      VerdictMeaning(s.rows[c.id], c.findings.value);
    }
    hide Verdict, Shows, Acceptable, Invalidated, HeadOf;
  }

  /** A merge moves Git and saves the merged row, or withdraws the verdict and saves, or changes nothing. */
  lemma {:induction false} MergeShape(s: State, c: Command)
    requires c.Merge?
    ensures var (t, reply) := StepMerge(s, c);
            match reply
            case Merged(commit) =>
              && c.id in s.rows
              && t == Save(Put(s.(git := t.git), c.id, s.rows[c.id].(
                        merged := Some(commit), mergedBy := c.principal.id,
                        publication := "PENDING_INDEXER_OBSERVATION")))
            case Failed(code) =>
              if MergeSaves(reply) then c.id in s.rows && t == Save(Put(s, c.id, Invalidated(s.rows[c.id], code)))
              else t == s
            case _ => false
  {
    hide FastForward, Invalidated, HeadOf, OwnerNow;
  }

  /** Work on agent workspaces leaves the integrations alone, and saves both tables or neither. */
  lemma {:induction false} InspectedShape(s: State, id: string, trunk: Option<string>)
    ensures var (t, error) := Inspected(s, id, trunk);
            && t.git == s.git && t.rows == s.rows && (error.None? ==> id in t.workspaces)
            && (if InspectionSaves(s, id, trunk) then t == Save(t) else t == s)
  {
    hide WorktreeHead;
  }

  lemma {:induction false} RetiringIsInspected(s: State, c: Command)
    requires c.RetireWorkspace? && !InspectionSaves(s, c.id, c.trunk)
    ensures StepRetireWorkspace(s, c).0 == s
  {
    hide WorktreeHead;
  }

  lemma {:induction false} WorkspaceShape(s: State, c: Command)
    requires IsWorkspaceCommand(c)
    ensures var t := Step(s, c).0;
            t.rows == s.rows && if Saves(s, c) then t == Save(t) else t == s
  {
    if !c.AddWorkspace? {
      InspectedShape(s, c.id, c.trunk);
      if c.RetireWorkspace? && !InspectionSaves(s, c.id, c.trunk) {
        RetiringIsInspected(s, c);
      }
    }
    hide Inspected, InspectionSaves, Contains, WithWorktree, Live;
  }

  lemma {:induction false} RetirementShape(s: State, c: Command)
    requires c.RetireIntegration?
    ensures var t := StepRetireIntegration(s, c).0;
            if Saves(s, c) then c.id in s.rows && t == Save(Put(s.(git := t.git), c.id, s.rows[c.id].(retired := true)))
            else t == s.(git := t.git)
  {
    hide HeadOf;
  }

  /** The command works on agent workspaces. */
  predicate IsWorkspaceCommand(c: Command) {
    c.AddWorkspace? || c.Inspect? || c.Submit? || c.RetireWorkspace?
  }

  /** A merge saves when it succeeds and when it finds a head moved. */
  predicate MergeSaves(reply: Reply) {
    reply.Merged? || reply in {Failed("STALE_TARGET_HEAD"), Failed("STALE_INTEGRATION_HEAD")}
  }

  /** The command writes the tables to disk. */
  predicate Saves(s: State, c: Command)
    requires c.Create? ==> |c.outcomes| == |c.workspaces|
  {
    var reply := Step(s, c).1;
    match c
    case Create(_, _, _, _, _, _, _) => reply.Created?
    case Audit(_, _, _) => reply.Projected?
    case Project(_) => reply.Projected?
    case Merge(_, _, _) => MergeSaves(reply)
    case Observe(_, _, _) => reply.Observed?
    case AddWorkspace(_, _, _, _, _, _) => reply.Quiet?
    case Inspect(id, trunk) => InspectionSaves(s, id, trunk)
    case Submit(id, trunk, _) => InspectionSaves(s, id, trunk) || reply.Quiet?
    case RetireWorkspace(id, trunk, _) => InspectionSaves(s, id, trunk)
    case RetireIntegration(id, _, _, _) => reply.Quiet? && !s.rows[id].retired
    case Outside(_) => false
    case Restart => false
  }

  /** An inspection saves unless the workspace is unknown or retired, or Git fails before. */
  predicate InspectionSaves(s: State, id: string, trunk: Option<string>) {
    && id in s.workspaces && !s.workspaces[id].retired
    && (s.workspaces[id].path in s.git.worktrees ==>
          && WorktreeHead(s.git, s.workspaces[id].path).Some?
          && trunk.Some? && trunk.value in s.git.branches)
  }

  /** A command that saves writes the very tables it leaves in memory; no other touches the file. */
  lemma {:induction false} SavedByStep(s: State, c: Command)
    requires c.Create? ==> |c.outcomes| == |c.workspaces|
    ensures var t := Step(s, c).0;
            if Saves(s, c) then t.saved == t.rows && t.savedWorkspaces == t.workspaces
            else t.saved == s.saved && t.savedWorkspaces == s.savedWorkspaces
  {
    if IsWorkspaceCommand(c) {
      WorkspaceShape(s, c);
      hide Step, Saves;
    } else {
      hide StepCreate, StepAudit, StepMerge, StepRetireIntegration, InspectionSaves, HeadOf;
      match c {
        case Create(_, _, _, _, _, _, _) => CreateShape(s, c);
        case Audit(_, _, _) => AuditShape(s, c);
        case Merge(_, _, _) => MergeShape(s, c);
        case RetireIntegration(_, _, _, _) => RetirementShape(s, c);
        case Project(_) =>
        case Observe(_, _, _) =>
        case Outside(_) =>
        case Restart =>
      }
    }
  }

  // ---------- when each command goes through, and what it leaves ----------

  /** A commit that is already contained is skipped; a clean merge adds one commit on top of both. */
  ghost predicate MergesTo(g: Git, branch: string, commit: string, o: Outcome, h: Git) {
    && branch in g.branches
    && if Contains(g, g.branches[branch], commit) then h == g
       else
         && o.Clean? && commit in g.past && o.commit !in g.past
         && h.worktrees == g.worktrees && h.root == g.root && h.identity == g.identity
         && h.branches == g.branches[branch := o.commit]
         && (forall x :: x in h.past <==> x in g.past || x == o.commit)
         && (forall x :: x in g.past ==> h.past[x] == g.past[x])
         && forall x :: x in h.past[o.commit] <==>
              || x == o.commit || Contains(g, g.branches[branch], x) || Contains(g, commit, x)
  }

  lemma {:induction false} MergeOneMeaning(g: Git, branch: string, commit: string, o: Outcome)
    ensures forall h :: MergeOne(g, branch, commit, o) == Some(h) <==> MergesTo(g, branch, commit, o, h)
  {
    forall h ensures MergeOne(g, branch, commit, o) == Some(h) <==> MergesTo(g, branch, commit, o, h) {
      if branch in g.branches && !Contains(g, g.branches[branch], commit) && o.Clean? && commit in g.past
         && o.commit !in g.past
      {
        AdvanceMeaning(g, branch, commit, o.commit, h);
      }
    }
  }

  lemma {:induction false} AdvanceMeaning(g: Git, branch: string, commit: string, m: string, h: Git)
    requires branch in g.branches && !Contains(g, g.branches[branch], commit) && commit in g.past && m !in g.past
    ensures h == Advance(g, branch, commit, m) <==> MergesTo(g, branch, commit, Clean(m), h)
  {
    var k := Advance(g, branch, commit, m);
    forall x ensures x in k.past[m] <==>
        || x == m || Contains(g, g.branches[branch], x) || Contains(g, commit, x) {
    }
    if MergesTo(g, branch, commit, Clean(m), h) {
      assert h.past.Keys == k.past.Keys;
      forall x | x in h.past ensures h.past[x] == k.past[x] {
      }
      assert h.past == k.past;
    }
  }

  /** The states the merge loop goes through: one for each candidate that went in. */
  ghost predicate MergeChain(gs: seq<Git>, branch: string, commits: seq<string>, outcomes: seq<Outcome>)
    requires |commits| == |outcomes|
  {
    && 1 <= |gs| <= |commits| + 1
    && forall j :: 0 <= j < |gs| - 1 ==> MergesTo(gs[j], branch, commits[j], outcomes[j], gs[j + 1])
  }

  /** The loop ends behind the last candidate, or at the first one Git refuses, with the files left unmerged. */
  lemma {:induction false} MergeAllMeaning(
      g: Git, branch: string, commits: seq<string>, outcomes: seq<Outcome>) returns (gs: seq<Git>)
    requires |commits| == |outcomes|
    ensures MergeChain(gs, branch, commits, outcomes) && gs[0] == g
    ensures var (h, status, files) := MergeAll(g, branch, commits, outcomes, 0); var k := |gs| - 1;
      && h == gs[k]
      && (status == CLEAN_MERGE <==> k == |commits|)
      && (status == CLEAN_MERGE ==> files == {})
      && (status != CLEAN_MERGE ==>
            && (forall n :: !MergesTo(h, branch, commits[k], outcomes[k], n))
            && files == (if outcomes[k].Conflict? then outcomes[k].files else {})
            && (status == TEXT_CONFLICT <==> files != {}))
  {
    gs := MergeRest(g, branch, commits, outcomes, 0);
  }

  lemma {:induction false} MergeRest(
      g: Git, branch: string, commits: seq<string>, outcomes: seq<Outcome>, i: nat) returns (gs: seq<Git>)
    requires i <= |commits| == |outcomes|
    ensures MergeChain(gs, branch, commits[i..], outcomes[i..]) && gs[0] == g
    ensures var (h, status, files) := MergeAll(g, branch, commits, outcomes, i); var k := i + |gs| - 1;
      && k <= |commits| && h == gs[|gs| - 1]
      && (status == CLEAN_MERGE <==> k == |commits|)
      && (status == CLEAN_MERGE ==> files == {})
      && (status != CLEAN_MERGE ==>
            && (forall n :: !MergesTo(h, branch, commits[k], outcomes[k], n))
            && files == (if outcomes[k].Conflict? then outcomes[k].files else {})
            && (status == TEXT_CONFLICT <==> files != {}))
    decreases |commits| - i
  {
    gs := [g];
    if i < |commits| {
      MergeOneMeaning(g, branch, commits[i], outcomes[i]);
      hide MergesTo, MergeOne;
      var next := MergeOne(g, branch, commits[i], outcomes[i]);
      if next.Some? {
        var rest := MergeRest(next.value, branch, commits, outcomes, i + 1);
        gs := [g] + rest;
        assert commits[i..][1..] == commits[i + 1..] && outcomes[i..][1..] == outcomes[i + 1..];
        forall j | 0 <= j < |gs| - 1 ensures MergesTo(gs[j], branch, commits[i..][j], outcomes[i..][j], gs[j + 1]) {
          if j > 0 {
            assert MergesTo(rest[j - 1], branch, commits[i + 1..][j - 1], outcomes[i + 1..][j - 1], rest[j]);
          }
        }
      }
    }
  }

  /** A published merge is observed once, while the root still stands at the merged commit. */
  lemma {:induction false} ObserveMeaning(s: State, c: Command)
    requires c.Observe?
    ensures var (t, reply) := StepObserve(s, c);
      && (reply.Observed? <==>
            && c.id in s.rows && s.rows[c.id].publication == "PENDING_INDEXER_OBSERVATION" && c.available
            && c.receipt.Some? && s.rows[c.id].merged.Some? && HeadOf(s.git, s.git.root) == s.rows[c.id].merged)
      && (reply.Observed? ==>
            Some(reply.status) == c.receipt
            && t == Save(Put(s, c.id, s.rows[c.id].(publication := c.receipt.value))))
      && (!reply.Observed? ==> t == s)
  {
    hide HeadOf;
  }

  /** A worktree is made on a new branch, at a commit that exists, unless a rule stands against it. */
  lemma {:induction false} AddWorkspaceMeaning(s: State, c: Command)
    requires c.AddWorkspace?
    ensures var (t, reply) := StepAddWorkspace(s, c);
      && (reply == Quiet <==>
            && s.git.root.head.OnBranch? && c.base in s.git.past && c.refusal == None
            && c.branch !in s.git.branches && c.path !in s.git.worktrees)
      && (reply == Quiet ==>
            && t.git == s.git.(branches := s.git.branches[c.branch := c.base],
                               worktrees := s.git.worktrees[c.path := Worktree(OnBranch(c.branch), true)])
            && t.workspaces == s.workspaces[c.id := Workspace(
                 c.change, s.git.identity, c.base, c.path, c.base, None, false)]
            && t.rows == s.rows && t.saved == t.rows && t.savedWorkspaces == t.workspaces)
      && (reply != Quiet ==> t == s)
  {
  }

  /** The workspace as the inspection leaves it: with the head Git shows, if it is alive. */
  ghost predicate IsInspected(s: State, id: string, trunk: Option<string>, w: Workspace) {
    && id in s.workspaces
    && if !s.workspaces[id].retired && s.workspaces[id].path in s.git.worktrees then
         && trunk.Some? && trunk.value in s.git.branches
         && WorktreeHead(s.git, s.workspaces[id].path).Some?
         && w == s.workspaces[id].(current := WorktreeHead(s.git, s.workspaces[id].path).value)
       else w == s.workspaces[id]
  }

  lemma {:induction false} InspectedMeaning(s: State, id: string, trunk: Option<string>)
    ensures var (t, error) := Inspected(s, id, trunk);
      && (error.None? <==> exists w :: IsInspected(s, id, trunk, w))
      && (error.None? ==> id in t.workspaces && IsInspected(s, id, trunk, t.workspaces[id])
                          && t.workspaces == s.workspaces[id := t.workspaces[id]])
      && (error.Some? ==> t == s)
  {
    hide WorktreeHead;
    if Inspected(s, id, trunk).1.None? {
      assert IsInspected(s, id, trunk, Inspected(s, id, trunk).0.workspaces[id]);
    }
  }

  /** The worktree is there, and if the workspace lives it is clean and on a branch. */
  ghost predicate Submittable(s: State, w: Workspace) {
    && w.path in s.git.worktrees
    && (!w.retired ==> s.git.worktrees[w.path].clean && s.git.worktrees[w.path].head.OnBranch?)
    && w.current != w.base && Contains(s.git, w.current, w.base)
  }

  ghost predicate SubmittedAs(s: State, c: Command, w: Workspace, t: State)
    requires c.Submit?
  {
    t.workspaces == s.workspaces[c.id := w.(submitted := Some(Submission(w.current, c.inScope)), retired := false)]
  }

  /** A submission goes through exactly for new work on top of the base in a clean worktree. */
  lemma {:induction false} SubmitMeaning(s: State, c: Command)
    requires c.Submit?
    ensures var (t, reply) := StepSubmit(s, c);
      && (reply == Quiet <==> exists w :: IsInspected(s, c.id, c.trunk, w) && Submittable(s, w))
      && (reply == Quiet ==> exists w :: IsInspected(s, c.id, c.trunk, w) && SubmittedAs(s, c, w, t))
  {
    InspectedMeaning(s, c.id, c.trunk);
    InspectedShape(s, c.id, c.trunk);
    hide Inspected, Contains;
    var (t, error) := Inspected(s, c.id, c.trunk);
    if error.None? {
      var w := t.workspaces[c.id];
      assert IsInspected(s, c.id, c.trunk, w);
      forall x | IsInspected(s, c.id, c.trunk, x) ensures x == w {
      }
      hide IsInspected;
      assert t.workspaces[c.id := w] == t.workspaces;
    }
  }

  ghost predicate MayRetire(s: State, c: Command, w: Workspace)
    requires c.RetireWorkspace?
  {
    || w.retired
    || (w.path in s.git.worktrees && c.removed
        && (s.git.worktrees[w.path].clean || s.git.worktrees[w.path].head.Detached?))
  }

  ghost predicate RetiredAs(s: State, c: Command, w: Workspace, t: State)
    requires c.RetireWorkspace?
  {
    if w.retired then t == s
    else
      && t.workspaces == s.workspaces[c.id := w.(retired := true)]
      && t.git == s.git.(worktrees := s.git.worktrees - {w.path})
  }

  /** A worktree is retired unless it has uncommitted work; what was retired stays as it is. */
  lemma {:induction false} RetireWorkspaceMeaning(s: State, c: Command)
    requires c.RetireWorkspace?
    ensures var (t, reply) := StepRetireWorkspace(s, c);
      && (reply == Quiet <==> exists w :: IsInspected(s, c.id, c.trunk, w) && MayRetire(s, c, w))
      && (reply == Quiet ==> exists w :: IsInspected(s, c.id, c.trunk, w) && RetiredAs(s, c, w, t))
  {
    InspectedMeaning(s, c.id, c.trunk);
    InspectedShape(s, c.id, c.trunk);
    hide Inspected;
    var (t, error) := Inspected(s, c.id, c.trunk);
    if error.None? {
      var w := t.workspaces[c.id];
      assert IsInspected(s, c.id, c.trunk, w);
      forall x | IsInspected(s, c.id, c.trunk, x) ensures x == w {
      }
      hide IsInspected;
    }
  }

  /** An integration is retired while its worktree stands at its head, an unfinished merge aborted on request. */
  lemma {:induction false} RetireIntegrationMeaning(s: State, c: Command)
    requires c.RetireIntegration?
    ensures var (t, reply) := StepRetireIntegration(s, c);
      && (reply == Quiet <==>
            && c.id in s.rows
            && (s.rows[c.id].retired
                || (WorktreeHead(s.git, s.rows[c.id].path) == Some(s.rows[c.id].head) && c.removed
                    && (s.git.worktrees[s.rows[c.id].path].clean || (c.abort && c.aborted)))))
      && (reply == Quiet && s.rows[c.id].retired ==> t == s)
      && (reply == Quiet && !s.rows[c.id].retired ==>
            && t.rows == s.rows[c.id := s.rows[c.id].(retired := true)]
            && t.git.worktrees == s.git.worktrees - {s.rows[c.id].path})
  {
    hide HeadOf;
    if c.id in s.rows && s.rows[c.id].path in s.git.worktrees {
      var row := s.rows[c.id];
      var w := s.git.worktrees[row.path];
      var g := s.git.(worktrees := s.git.worktrees[row.path := w.(clean := true)]);
      SameHead(s.git, g, w);
      assert Unlinked(g, row.path).worktrees == s.git.worktrees - {row.path};
    }
  }

  lemma {:induction false} SameHead(g: Git, h: Git, w: Worktree)
    requires h.branches == g.branches
    ensures HeadOf(h, w) == HeadOf(g, w)
  {
  }

  ghost predicate SomeCandidate(s: State, ids: seq<string>, fails: Workspace -> bool) {
    exists i :: 0 <= i < |ids| && ids[i] in s.workspaces && fails(s.workspaces[ids[i]])
  }

  /** What a refusal says of the creation of an integration. */
  ghost predicate CreationRefusal(s: State, c: Command, code: string)
    requires c.Create?
  {
    || (code == "MISSING_BRANCH" && c.target !in s.git.branches)
    || (code == "CANDIDATE_REQUIRED" && c.workspaces == [])
    || (code == "MISSING_WORKTREE" && exists id :: id in c.workspaces && id !in s.workspaces)
    || (code == "REPOSITORY_MISMATCH" && SomeCandidate(s, c.workspaces, (w: Workspace) => w.identity != s.git.identity))
    || (code == "UNCOMMITTED" && SomeCandidate(s, c.workspaces, (w: Workspace) => w.submitted == None))
    || (code == "SCOPE_VIOLATION"
        && SomeCandidate(s, c.workspaces, (w: Workspace) => w.submitted.Some? && !w.submitted.value.inScope))
    || code == "GIT_COMMAND_FAILED"
  }

  lemma {:induction false} CreationRefused(s: State, c: Command)
    requires c.Create? && |c.outcomes| == |c.workspaces| && StepCreate(s, c).1.Failed?
    ensures CreationRefusal(s, c, StepCreate(s, c).1.code)
  {
    CandidateRefused(s, c);
    hide MergeAll, Commits, Dirty, WithWorktree, CreateRefusal, CreationRefusal;
    GitRefusalHolds(s, c);
  }

  lemma {:induction false} GitRefusalHolds(s: State, c: Command)
    requires c.Create?
    ensures CreationRefusal(s, c, "GIT_COMMAND_FAILED")
  {
  }

  lemma {:induction false} CandidateRefused(s: State, c: Command)
    requires c.Create?
    ensures CreateRefusal(s, c.target, c.workspaces).Some? ==>
      CreationRefusal(s, c, CreateRefusal(s, c.target, c.workspaces).value)
  {
    var ids := c.workspaces;
    if i :| 0 <= i < |ids| && ids[i] !in s.workspaces {
      assert ids[i] in ids;
    }
  }

  /** What a refusal says of a command about the integration `row`. */
  ghost predicate RowRefusal(s: State, c: Command, row: Integration, code: string) {
    || (code == "INTEGRATION_AUTHORITY_UNAVAILABLE" && (c.Audit? || c.Observe?) && !c.available)
    || (code == "DIRTY_WORKTREE" && row.path in s.git.worktrees && !s.git.worktrees[row.path].clean)
    || (code == "STALE_INTEGRATION_HEAD"
        && (WorktreeHead(s.git, row.path) != Some(row.head)
            || (row.projection.Some? && (row.projection.value.head, row.projection.value.target)
                != (row.head, row.targetHead))))
    || (code == "STALE_TARGET_HEAD" && Tip(s.git, row.target) != Some(row.targetHead))
    || (code == "INTEGRATION_AUDIT_FAILED" && c.Audit? && c.findings == None)
    || (code == "MERGE_NOT_ELIGIBLE" && !EligibleRow(row))
    || (code == "OWNER_AUTHORIZATION_REQUIRED" && c.Merge?
        && !(c.principal.kind == "LOCAL_OWNER" && c.principal.authorization == "OWNER"
             && c.now < c.principal.expiresAt))
    || (code == "HUMAN_WORKTREE_UNAVAILABLE" && s.git.root != Worktree(OnBranch(row.target), true))
    || (code == "OBSERVATION_NOT_PENDING" && row.publication != "PENDING_INDEXER_OBSERVATION")
    || (code == "MERGED_HEAD_CHANGED" && HeadOf(s.git, s.git.root) != row.merged)
    || (code == "OBSERVATION_FAILED" && c.Observe? && c.receipt == None)
    || (code == "MISSING_WORKTREE" && row.path !in s.git.worktrees)
    || (code == "MERGE_ABORTED" && c.RetireIntegration? && c.abort && !c.aborted)
    || (code == "WORKTREE_HEAD_MISMATCH" && WorktreeHead(s.git, row.path) != Some(row.head))
    || code == "GIT_COMMAND_FAILED"
  }

  /** Every refusal of a command about an integration is for a reason that holds. */
  lemma {:induction false} IntegrationRefused(s: State, c: Command)
    requires (c.Audit? || c.Project? || c.Merge? || c.Observe? || c.RetireIntegration?) && Step(s, c).1.Failed?
    ensures if c.id !in s.rows then Step(s, c).1.code == "MISSING_INTEGRATION"
            else RowRefusal(s, c, s.rows[c.id], Step(s, c).1.code)
  {
    if c.id in s.rows {
      match c {
        case Audit(_, _, _) => AuditRefused(s, c);
        case Merge(_, _, _) => MergeRefused(s, c);
        case RetireIntegration(_, _, _, _) => RetirementRefused(s, c);
        case _ => hide HeadOf;
      }
    }
  }

  lemma {:induction false} AuditRefused(s: State, c: Command)
    requires c.Audit? && StepAudit(s, c).1.Failed? && c.id in s.rows
    ensures RowRefusal(s, c, s.rows[c.id], StepAudit(s, c).1.code)
  {
    hide HeadOf, Verdict, Invalidated;
  }

  lemma {:induction false} MergeRefused(s: State, c: Command)
    requires c.Merge? && StepMerge(s, c).1.Failed? && c.id in s.rows
    ensures RowRefusal(s, c, s.rows[c.id], StepMerge(s, c).1.code)
  {
    hide HeadOf, FastForward, Invalidated;
  }

  lemma {:induction false} RetirementRefused(s: State, c: Command)
    requires c.RetireIntegration? && StepRetireIntegration(s, c).1.Failed? && c.id in s.rows
    ensures RowRefusal(s, c, s.rows[c.id], StepRetireIntegration(s, c).1.code)
  {
    var row := s.rows[c.id];
    if row.path in s.git.worktrees {
      var w := s.git.worktrees[row.path];
      SameHead(s.git, s.git.(worktrees := s.git.worktrees[row.path := w.(clean := true)]), w);
    }
    hide HeadOf;
  }

  /** What a refusal says of a workspace command. */
  ghost predicate WorkspaceRefusal(s: State, c: Command, code: string) {
    || (c.AddWorkspace?
        && ((code == "DETACHED_HEAD" && s.git.root.head.Detached?)
            || (code == "INVALID_BASE_COMMIT" && c.base !in s.git.past)
            || c.refusal == Some(code)
            || (code == "GIT_COMMAND_FAILED" && (c.branch in s.git.branches || c.path in s.git.worktrees))))
    || ((c.Inspect? || c.Submit? || c.RetireWorkspace?)
        && ((code == "MISSING_WORKTREE" && c.id !in s.workspaces)
            || (code == "MISSING_BRANCH" && c.trunk == None)
            || code == "GIT_COMMAND_FAILED"
            || (exists w :: IsInspected(s, c.id, c.trunk, w) && NotNow(s, c, w, code))))
  }

  ghost predicate NotNow(s: State, c: Command, w: Workspace, code: string) {
    || (code == "DIRTY_WORKTREE" && w.path in s.git.worktrees && !s.git.worktrees[w.path].clean)
    || (c.Submit?
        && ((code == "DETACHED_HEAD" && w.path in s.git.worktrees && s.git.worktrees[w.path].head.Detached?)
            || (code == "UNCOMMITTED" && w.current == w.base)
            || (code == "BASE_IDENTITY_MISMATCH"
                && (w.path !in s.git.worktrees || !Contains(s.git, w.current, w.base)))))
  }

  /** So is every refusal of a command about a workspace. */
  lemma {:induction false} WorkspaceRefused(s: State, c: Command)
    requires IsWorkspaceCommand(c) && Step(s, c).1.Failed?
    ensures WorkspaceRefusal(s, c, Step(s, c).1.code)
  {
    if !c.AddWorkspace? {
      if Inspected(s, c.id, c.trunk).1.Some? {
        InspectionRefused(s, c.id, c.trunk);
      }
      InspectedMeaning(s, c.id, c.trunk);
      InspectedShape(s, c.id, c.trunk);
      hide Inspected, Contains, IsInspected;
      var (t, error) := Inspected(s, c.id, c.trunk);
      if error.None? {
        assert IsInspected(s, c.id, c.trunk, t.workspaces[c.id]);
      }
    }
  }

  lemma {:induction false} InspectionRefused(s: State, id: string, trunk: Option<string>)
    requires Inspected(s, id, trunk).1.Some?
    ensures var code := Inspected(s, id, trunk).1.value;
      || (code == "MISSING_WORKTREE" && id !in s.workspaces)
      || (code == "MISSING_BRANCH" && trunk == None)
      || code == "GIT_COMMAND_FAILED"
  {
    hide WorktreeHead;
  }

  // ---------- where eligibility comes from ----------

  lemma {:induction false} PutVouches(rows: map<string, Integration>, id: string, row: Integration, j: Subject)
    requires Vouches(rows[id := row], j) && !Vouches(rows, j)
    ensures j.id == id && row.projection.Some? && row.projection.value.eligible
    ensures row.target == j.target && row.targetHead == j.targetHead && row.head == j.head
    ensures id in rows ==>
              || rows[id].projection != row.projection || rows[id].target != row.target
              || rows[id].targetHead != row.targetHead || rows[id].head != row.head
  {
  }

  lemma {:induction false} InvalidatedIsIneligible(row: Integration, reason: string)
    ensures var next := Invalidated(row, reason); next.projection.Some? ==> !next.projection.value.eligible
  {
  }

  lemma {:induction false} PassingAuditVouches(s: State, c: Command, j: Subject)
    requires c.Audit? && StepAudit(s, c).1.Projected?
    requires Vouches(StepAudit(s, c).0.rows, j) && !Vouches(s.rows, j)
    ensures PassesNow(s, c, j)
  {
    AuditShape(s, c);
    VerdictMeaning(s.rows[c.id], c.findings.value);
    hide StepAudit, Verdict, Shows, WorktreeHead, Vouches;
    PutVouches(s.rows, c.id, s.rows[c.id].(projection := Some(Verdict(s.rows[c.id], c.findings.value))), j);
  }

  lemma {:induction false} CreateVouchesNothing(s: State, c: Command, j: Subject)
    requires c.Create? && |c.outcomes| == |c.workspaces|
    requires Vouches(StepCreate(s, c).0.rows, j)
    ensures Vouches(s.rows, j)
  {
    CreateShape(s, c);
    hide StepCreate, Vouches;
    var (t, reply) := StepCreate(s, c);
    if reply.Created? && !Vouches(s.rows, j) {
      PutVouches(s.rows, c.id, reply.row, j);
      assert false;
    }
  }

  lemma {:induction false} WithdrawalVouchesNothing(s: State, id: string, reason: string, j: Subject)
    requires id in s.rows && Vouches(Put(s, id, Invalidated(s.rows[id], reason)).rows, j)
    ensures Vouches(s.rows, j)
  {
    InvalidatedIsIneligible(s.rows[id], reason);
    hide Vouches, Invalidated;
    if !Vouches(s.rows, j) {
      PutVouches(s.rows, id, Invalidated(s.rows[id], reason), j);
      assert false;
    }
  }

  /** Merging, observing and retiring leave verdict and heads of the row alone. */
  lemma {:induction false} SameVerdictVouchesNothing(s: State, id: string, row: Integration, j: Subject)
    requires id in s.rows && Vouches(Put(s, id, row).rows, j)
    requires row.projection == s.rows[id].projection && row.head == s.rows[id].head
    requires row.target == s.rows[id].target && row.targetHead == s.rows[id].targetHead
    ensures Vouches(s.rows, j)
  {
  }

  lemma {:induction false} MergeVouchesNothing(s: State, c: Command, j: Subject)
    requires c.Merge? && Vouches(StepMerge(s, c).0.rows, j)
    ensures Vouches(s.rows, j)
  {
    MergeShape(s, c);
    hide StepMerge, Vouches, Invalidated;
    var (t, reply) := StepMerge(s, c);
    if reply.Merged? {
      SameVerdictVouchesNothing(s, c.id, t.rows[c.id], j);
    } else if MergeSaves(reply) {
      WithdrawalVouchesNothing(s, c.id, reply.code, j);
    }
  }

  lemma {:induction false} RetirementVouchesNothing(s: State, c: Command, j: Subject)
    requires c.RetireIntegration? && Vouches(StepRetireIntegration(s, c).0.rows, j)
    ensures Vouches(s.rows, j)
  {
    RetirementShape(s, c);
    var t := StepRetireIntegration(s, c).0;
    hide StepRetireIntegration, Vouches, HeadOf;
    if t.rows != s.rows {
      SameVerdictVouchesNothing(s, c.id, s.rows[c.id].(retired := true), j);
    }
  }

  lemma {:induction false} ProjectionVouchesNothing(s: State, c: Command, j: Subject)
    requires c.Project? && Vouches(StepProject(s, c).0.rows, j)
    ensures Vouches(s.rows, j)
  {
    hide Vouches;
    var t := StepProject(s, c).0;
    if t.rows != s.rows && !Vouches(s.rows, j) {
      PutVouches(s.rows, c.id, t.rows[c.id], j);
      assert false;
    }
  }

  lemma {:induction false} ObservationVouchesNothing(s: State, c: Command, j: Subject)
    requires c.Observe? && Vouches(StepObserve(s, c).0.rows, j)
    ensures Vouches(s.rows, j)
  {
    hide Vouches, HeadOf;
    if c.id in s.rows && c.receipt.Some? {
      var row := s.rows[c.id].(publication := c.receipt.value);
      if Vouches(Put(s, c.id, row).rows, j) {
        SameVerdictVouchesNothing(s, c.id, row, j);
      }
    }
  }

  lemma {:induction false} AuditVouchesForHeadsSeen(s: State, c: Command, j: Subject)
    requires c.Audit? && Vouches(StepAudit(s, c).0.rows, j) && !Vouches(s.rows, j)
    ensures PassesNow(s, c, j)
  {
    AuditShape(s, c);
    var (t, reply) := StepAudit(s, c);
    if reply.Projected? {
      PassingAuditVouches(s, c, j);
    } else {
      hide StepAudit, Vouches, PassesNow, Invalidated;
      WithdrawalVouchesNothing(s, c.id, reply.code, j);
      assert false;
    }
  }

  /** In memory a row comes to vouch only by a passing audit, or a restart. */
  lemma {:induction false} NewVouchIsAudited(s: State, c: Command, j: Subject)
    requires !c.Restart? && (c.Create? ==> |c.outcomes| == |c.workspaces|)
    requires Vouches(Step(s, c).0.rows, j) && !Vouches(s.rows, j)
    ensures PassesNow(s, c, j)
  {
    if IsWorkspaceCommand(c) {
      WorkspaceShape(s, c);
      hide Step, Vouches, PassesNow, Saves;
    } else {
      hide StepCreate, StepAudit, StepMerge, StepProject, StepObserve, StepRetireIntegration, Vouches, PassesNow;
      match c {
        case Create(_, _, _, _, _, _, _) => CreateVouchesNothing(s, c, j);
        case Audit(_, _, _) => AuditVouchesForHeadsSeen(s, c, j);
        case Merge(_, _, _) => MergeVouchesNothing(s, c, j);
        case RetireIntegration(_, _, _, _) => RetirementVouchesNothing(s, c, j);
        case Project(_) => ProjectionVouchesNothing(s, c, j);
        case Observe(_, _, _) => ObservationVouchesNothing(s, c, j);
        case Outside(_) =>
      }
    }
  }

  lemma {:induction false} EligibilityComesFromAnAudit(s: State, c: Command, j: Subject)
    requires c.Create? ==> |c.outcomes| == |c.workspaces|
    requires Vouches(Step(s, c).0.rows, j) || Vouches(Step(s, c).0.saved, j)
    ensures Vouches(s.rows, j) || Vouches(s.saved, j) || PassesNow(s, c, j)
  {
    SavedByStep(s, c);
    if c.Restart? {
      RestartReadsDisk(s);
    } else if !Vouches(s.rows, j) && Vouches(Step(s, c).0.rows, j) {
      NewVouchIsAudited(s, c, j);
    }
    hide Step, Vouches, PassesNow, Saves;
  }

  lemma {:induction false} RestartReadsDisk(s: State)
    ensures var t := Step(s, Restart).0; t.rows == s.saved && t.workspaces == s.savedWorkspaces
  {
  }

  lemma {:induction false} VouchedMeansAudited(s0: State, cmds: seq<Command>, n: nat, j: Subject) returns (m: nat)
    requires Run(s0, cmds) && n <= |cmds|
    requires Vouches(StateAt(s0, cmds, n).rows, j) || Vouches(StateAt(s0, cmds, n).saved, j)
    ensures m < n && PassesNow(StateAt(s0, cmds, m), cmds[m], j)
  {
    hide Step, Legal, PassesNow, ValidGit;
    m := 0;
    if n > 0 {
      var s := StateAt(s0, cmds, n - 1);
      EligibilityComesFromAnAudit(s, cmds[n - 1], j);
      if PassesNow(s, cmds[n - 1], j) {
        m := n - 1;
      } else {
        m := VouchedMeansAudited(s0, cmds, n - 1, j);
      }
    }
  }

  /** A merge asks for an eligible row about the heads Git has, the owner, and the target checked out clean. */
  ghost predicate MayMerge(s: State, c: Command) {
    && c.Merge? && c.id in s.rows && EligibleRow(s.rows[c.id])
    && c.principal.kind == "LOCAL_OWNER" && c.principal.authorization == "OWNER" && c.principal.expiresAt > c.now
    && var row := s.rows[c.id];
    && s.git.root == Worktree(OnBranch(row.target), true)
    && Tip(s.git, row.target) == Some(row.targetHead) && WorktreeHead(s.git, row.path) == Some(row.head)
    && row.projection.value.head == row.head && row.projection.value.target == row.targetHead
    && row.branch in s.git.branches
    && (Contains(s.git, row.targetHead, s.git.branches[row.branch])
        || Contains(s.git, s.git.branches[row.branch], row.targetHead))
  }

  lemma {:induction false} MergeMeaning(s: State, c: Command)
    requires c.Merge?
    ensures StepMerge(s, c).1.Merged? <==> MayMerge(s, c)
    ensures StepMerge(s, c).1.Merged? ==>
      && c.id in s.rows
      && StepMerge(s, c).0.rows == s.rows[c.id := s.rows[c.id].(
           merged := Some(StepMerge(s, c).1.commit), mergedBy := c.principal.id,
           publication := "PENDING_INDEXER_OBSERVATION")]
  {
    hide Invalidated, Contains, HeadOf;
  }

  /** What a successful merge does to Git, whatever state it starts from. */
  lemma {:induction false} MergeEffect(s: State, c: Command)
    requires Kept(s) && c.Merge? && StepMerge(s, c).1.Merged?
    ensures c.id in s.rows
    ensures var row := s.rows[c.id]; var g := s.git; var h := StepMerge(s, c).0.git;
      && Tip(g, row.target) == Some(row.targetHead)
      && row.branch in g.branches
      && Vouches(s.rows, Subject(c.id, row.target, row.targetHead, row.head))
      && HoldsAll(g, row.head, row.targetHead, row.candidates)
      && StepMerge(s, c).1 == Merged(h.branches[row.target])
      && h.branches[row.target] == (if Contains(g, row.targetHead, g.branches[row.branch]) then row.targetHead
                                    else g.branches[row.branch])
      && Contains(h, h.branches[row.target], row.targetHead)
      && h.branches.Keys == g.branches.Keys && h.past == g.past
      && (forall b :: b in g.branches && b != row.target ==> h.branches[b] == g.branches[b])
  {
    hide Evolves;
    assert Sound(s.git, s.rows[c.id]);
  }

  /**
   In every run a successful merge starts at exactly the target head some earlier audit
   found nothing wrong with; when the integration branch still ends at the worktree's head
   it ends at exactly the audited head, which holds the old target and every candidate.
   */
  lemma {:induction false} MergesAreAudited(s0: State, cmds: seq<Command>, n: nat, s: State) returns (m: nat)
    requires Run(s0, cmds) && n < |cmds| && cmds[n].Merge?
    requires s == StateAt(s0, cmds, n) && StepMerge(s, cmds[n]).1.Merged?
    ensures cmds[n].id in s.rows
    ensures var row := s.rows[cmds[n].id]; var h := StepMerge(s, cmds[n]).0.git;
      && m < n && PassesNow(StateAt(s0, cmds, m), cmds[m], Subject(cmds[n].id, row.target, row.targetHead, row.head))
      && cmds[n].principal.kind == "LOCAL_OWNER" && cmds[n].principal.authorization == "OWNER"
      && cmds[n].principal.expiresAt > cmds[n].now
      && Tip(s.git, row.target) == Some(row.targetHead)
      && row.target in h.branches && Contains(h, h.branches[row.target], row.targetHead)
      && (Tip(s.git, row.branch) == Some(row.head) ==>
            && h.branches[row.target] == row.head
            && HoldsAll(h, h.branches[row.target], row.targetHead, row.candidates))
  {
    hide Run, PassesNow, StepMerge, Vouches;
    RunKeeps(s0, cmds, n);
    MergeMeaning(s, cmds[n]);
    MergeEffect(s, cmds[n]);
    var row := s.rows[cmds[n].id];
    m := VouchedMeansAudited(s0, cmds, n, Subject(cmds[n].id, row.target, row.targetHead, row.head));
    hide StateAt, WellFormed;
  }

  /** The merge ends at the audited head exactly when the branch tip is that head, or there was nothing to merge. */
  lemma {:induction false} EndsAtAuditedHeadIff(s: State, c: Command)
    requires Kept(s) && c.Merge? && StepMerge(s, c).1.Merged?
    ensures c.id in s.rows && s.rows[c.id].branch in s.git.branches
    ensures var row := s.rows[c.id]; var tip := s.git.branches[row.branch];
            StepMerge(s, c).1 == Merged(row.head) <==>
              tip == row.head || (row.head == row.targetHead && Contains(s.git, row.targetHead, tip))
  {
    MergeEffect(s, c);
    hide StepMerge, Sound;
    var row := s.rows[c.id];
    var tip := s.git.branches[row.branch];
    assert Contains(s.git, row.head, row.targetHead);
    if tip == row.head && Contains(s.git, row.targetHead, tip) {
      assert row.targetHead == row.head;
    }
  }

  /** A worktree that still has its integration branch checked out meets that condition. */
  lemma {:induction false} AttachedWorktreeMergesTheAuditedHead(s: State, c: Command)
    requires Kept(s) && c.Merge? && StepMerge(s, c).1.Merged? && c.id in s.rows
    requires s.rows[c.id].path in s.git.worktrees
    requires s.git.worktrees[s.rows[c.id].path].head == OnBranch(s.rows[c.id].branch)
    ensures StepMerge(s, c).1 == Merged(s.rows[c.id].head)
  {
    assert WorktreeHead(s.git, s.rows[c.id].path) == Some(s.rows[c.id].head);
    EndsAtAuditedHeadIff(s, c);
  }

  lemma {:induction false} RefusedMergeLeavesGit(s: State, c: Command)
    requires c.Merge? && !StepMerge(s, c).1.Merged?
    ensures StepMerge(s, c).0.git == s.git
  {
    MergeShape(s, c);
    hide StepMerge, Invalidated;
  }

  /** Nothing but a successful merge moves a branch that already exists. */
  lemma {:induction false} OnlyMergesMoveBranches(s: State, c: Command)
    requires Kept(s) && Legal(s, c) && !c.Outside? && !Step(s, c).1.Merged?
    ensures forall b :: b in s.git.branches ==> Tip(Step(s, c).0.git, b) == Tip(s.git, b)
  {
    if IsWorkspaceCommand(c) {
      WorkspaceStepKeeps(s, c);
    } else {
      hide StepCreate, StepAudit, StepMerge, StepProject, StepObserve, StepRetireIntegration, Kept;
      match c {
        case Create(_, _, _, _, _, _, _) => CreateKeeps(s, c);
        case Audit(_, _, _) => AuditKeeps(s, c);
        case Project(_) => ProjectKeeps(s, c);
        case Observe(_, _, _) => ObserveKeeps(s, c);
        case Merge(_, _, _) => RefusedMergeLeavesGit(s, c);
        case RetireIntegration(_, _, _, _) => RetireIntegrationKeeps(s, c);
        case Restart =>
      }
    }
  }

  /** An audit that passes is enough: with nothing moved in between, the owner's merge goes through. */
  lemma {:induction false} UndisturbedAuditMerges(s: State, a: Command, c: Command, f: Findings)
    requires Kept(s) && a.Audit? && c.Merge? && a.id == c.id && a.id in s.rows
    requires a.findings == Some(f) && Acceptable(s.rows[a.id], f)
    requires StepAudit(s, a).1 == Projected(Verdict(s.rows[a.id], f))
    requires OwnerNow(c.principal, c.now)
    requires s.git.root == Worktree(OnBranch(s.rows[a.id].target), true)
    requires s.git.worktrees[s.rows[a.id].path].head == OnBranch(s.rows[a.id].branch)
    ensures StepMerge(StepAudit(s, a).0, c).1 == Merged(s.rows[a.id].head)
  {
    var t := StepAudit(s, a).0;
    AuditKeeps(s, a);
    VerdictMeaning(s.rows[a.id], f);
    var row := t.rows[c.id];
    hide Diagnostics, StepAudit, Shows;
    assert Sound(t.git, row);
    assert row.status.CLEAN_MERGE?;
    assert Contains(t.git, row.head, row.targetHead);
    assert StepMerge(t, c).1.Merged?;
    AttachedWorktreeMergesTheAuditedHead(t, c);
  }

  /** A caller's own claims take every verdict back. */
  lemma {:induction false} ClaimsGrantNothing(s: State, p: Command, c: Command)
    requires p.Project? && c.Merge? && p.id == c.id && p.id in s.rows
    ensures StepMerge(StepProject(s, p).0, c).1 == Failed("MERGE_NOT_ELIGIBLE")
  {
  }

  // ---------- a verdict withdrawn in memory only ----------

  ghost predicate Unsaved(s0: State, cmds: seq<Command>, n: nat, m: nat)
    requires WellFormed(cmds) && m <= |cmds|
  {
    forall k :: n <= k < m ==> !Saves(StateAt(s0, cmds, k), cmds[k])
  }

  /** From n to m the manager runs on and nobody passes the integration again. */
  ghost predicate Undecided(s0: State, cmds: seq<Command>, n: nat, m: nat, j: Subject)
    requires WellFormed(cmds) && m <= |cmds|
  {
    forall k :: n <= k < m ==> !cmds[k].Restart? && !PassesNow(StateAt(s0, cmds, k), cmds[k], j)
  }

  lemma {:induction false} WithdrawnUntilSaved(s0: State, cmds: seq<Command>, n: nat, m: nat, j: Subject)
    requires WellFormed(cmds) && n <= m <= |cmds| && Undecided(s0, cmds, n, m, j)
    requires !Vouches(StateAt(s0, cmds, n).rows, j) && Vouches(StateAt(s0, cmds, n).saved, j)
    ensures !Vouches(StateAt(s0, cmds, m).rows, j)
    ensures Vouches(StateAt(s0, cmds, m).saved, j) <==> Unsaved(s0, cmds, n, m)
    decreases m - n
  {
    hide Step, PassesNow, Vouches, Saves;
    if n < m {
      var s, c := StateAt(s0, cmds, m - 1), cmds[m - 1];
      WithdrawnUntilSaved(s0, cmds, n, m - 1, j);
      SavedByStep(s, c);
      if Vouches(Step(s, c).0.rows, j) {
        NewVouchIsAudited(s, c, j);
        assert false;
      }
    }
  }

  /**
   An audit that meets moved heads withdraws the verdict only in memory: after a restart
   it is back exactly when no command in between saved the rows.
   */
  lemma {:induction false} WithdrawnVerdictReturnsIff(s0: State, cmds: seq<Command>, n: nat, m: nat, j: Subject)
    requires WellFormed(cmds) && n < m < |cmds| && cmds[n].Audit? && cmds[n].id == j.id && cmds[m].Restart?
    requires Vouches(StateAt(s0, cmds, n).rows, j) && Vouches(StateAt(s0, cmds, n).saved, j)
    requires Step(StateAt(s0, cmds, n), cmds[n]).1 in {Failed("STALE_INTEGRATION_HEAD"), Failed("STALE_TARGET_HEAD")}
    requires Undecided(s0, cmds, n + 1, m, j)
    ensures !Vouches(StateAt(s0, cmds, n + 1).rows, j)
    ensures Vouches(StateAt(s0, cmds, m + 1).rows, j) <==> Unsaved(s0, cmds, n + 1, m)
  {
    hide *;
    StateAtNext(s0, cmds, n);
    StateAtNext(s0, cmds, m);
    StaleAuditWithdraws(StateAt(s0, cmds, n), cmds[n], j);
    RestartReadsDisk(StateAt(s0, cmds, m));
    assert cmds[m] == Restart;
    WithdrawnUntilSaved(s0, cmds, n + 1, m, j);
    SameRowsVouch(StateAt(s0, cmds, n).saved, StateAt(s0, cmds, n + 1).saved, j);
    SameRowsVouch(StateAt(s0, cmds, m).saved, StateAt(s0, cmds, m + 1).rows, j);
  }

  lemma {:induction false} StateAtNext(s0: State, cmds: seq<Command>, n: nat)
    requires WellFormed(cmds) && n < |cmds|
    ensures cmds[n].Create? ==> |cmds[n].outcomes| == |cmds[n].workspaces|
    ensures StateAt(s0, cmds, n + 1) == Step(StateAt(s0, cmds, n), cmds[n]).0
  {
    hide Step;
  }

  lemma {:induction false} SameRowsVouch(a: map<string, Integration>, b: map<string, Integration>, j: Subject)
    requires a == b
    ensures Vouches(a, j) == Vouches(b, j)
  {
  }

  lemma {:induction false} StaleAuditWithdraws(s: State, c: Command, j: Subject)
    requires c.Audit? && c.id == j.id
    requires Step(s, c).1 in {Failed("STALE_INTEGRATION_HEAD"), Failed("STALE_TARGET_HEAD")}
    ensures !Vouches(Step(s, c).0.rows, j) && Step(s, c).0.saved == s.saved
  {
  }

  // ---------- what a restart can change ----------

  /** In memory a row is its saved copy, or that copy with the verdict withdrawn. */
  ghost predicate SameOrWithdrawn(row: Integration, kept: Integration) {
    && row.(projection := None) == kept.(projection := None)
    && (row == kept
        || (row.projection.Some? && kept.projection.Some? && !row.projection.value.eligible
            && !row.projection.value.isFresh
            && kept.projection.value.diagnostics <= row.projection.value.diagnostics))
  }

  ghost predicate OnDisk(s: State) {
    && s.workspaces == s.savedWorkspaces && s.rows.Keys == s.saved.Keys
    && forall id :: id in s.rows ==> SameOrWithdrawn(s.rows[id], s.saved[id])
  }

  lemma {:induction false} SavedIsOnDisk(s: State)
    ensures OnDisk(Save(s))
  {
  }

  lemma {:induction false} WithdrawnIsOnDisk(s: State, id: string, reason: string)
    requires OnDisk(s) && id in s.rows
    ensures OnDisk(Put(s, id, Invalidated(s.rows[id], reason)))
  {
  }

  lemma {:induction false} SameTablesOnDisk(s: State, t: State)
    requires OnDisk(s) && t.rows == s.rows && t.workspaces == s.workspaces
    requires t.saved == s.saved && t.savedWorkspaces == s.savedWorkspaces
    ensures OnDisk(t)
  {
  }

  lemma {:induction false} WrittenIsOnDisk(t: State)
    requires t.saved == t.rows && t.savedWorkspaces == t.workspaces
    ensures OnDisk(t)
  {
  }

  /** A command that does not save leaves both tables alone, but for a withdrawn verdict. */
  lemma {:induction false} UnsavedStep(s: State, c: Command)
    requires !c.Restart? && (c.Create? ==> |c.outcomes| == |c.workspaces|) && !Saves(s, c)
    ensures var t := Step(s, c).0;
            && t.workspaces == s.workspaces
            && (t.rows == s.rows
                || (c.Audit? && c.id in s.rows
                    && (t.rows == Put(s, c.id, Invalidated(s.rows[c.id], "STALE_INTEGRATION_HEAD")).rows
                        || t.rows == Put(s, c.id, Invalidated(s.rows[c.id], "STALE_TARGET_HEAD")).rows)))
  {
    if IsWorkspaceCommand(c) {
      WorkspaceShape(s, c);
      hide Step, Saves;
    } else {
      hide StepCreate, StepAudit, StepMerge, StepRetireIntegration, Invalidated;
      match c {
        case Create(_, _, _, _, _, _, _) => CreateShape(s, c);
        case Audit(_, _, _) => AuditShape(s, c);
        case Merge(_, _, _) => MergeShape(s, c);
        case RetireIntegration(_, _, _, _) => RetirementShape(s, c);
        case Project(_) =>
        case Observe(_, _, _) =>
        case Outside(_) =>
      }
    }
  }

  lemma {:induction false} StepIsOnDisk(s: State, c: Command)
    requires OnDisk(s) && (c.Create? ==> |c.outcomes| == |c.workspaces|)
    ensures OnDisk(Step(s, c).0)
  {
    var t := Step(s, c).0;
    SavedByStep(s, c);
    if c.Restart? {
      RestartReadsDisk(s);
      hide Step, Saves;
    } else if Saves(s, c) {
      WrittenIsOnDisk(t);
    } else {
      UnsavedStep(s, c);
      hide Step, Saves, OnDisk;
      if t.rows == s.rows {
        SameTablesOnDisk(s, t);
      } else {
        WithdrawnIsOnDisk(s, c.id, "STALE_INTEGRATION_HEAD");
        WithdrawnIsOnDisk(s, c.id, "STALE_TARGET_HEAD");
        var reason := if t.rows == Put(s, c.id, Invalidated(s.rows[c.id], "STALE_TARGET_HEAD")).rows
                      then "STALE_TARGET_HEAD" else "STALE_INTEGRATION_HEAD";
        SameTablesOnDisk(Put(s, c.id, Invalidated(s.rows[c.id], reason)), t);
      }
    }
  }

  /** Nothing but withdrawn verdicts is lost in a restart: all else, workspaces included, is on disk at every moment. */
  lemma {:induction false} RestartLosesOnlyWithdrawals(s0: State, cmds: seq<Command>, n: nat)
    requires Run(s0, cmds) && n <= |cmds|
    ensures OnDisk(StateAt(s0, cmds, n))
  {
    hide Step, Legal, OnDisk;
    if n == 0 {
      FreshIsOnDisk(s0);
    } else {
      RestartLosesOnlyWithdrawals(s0, cmds, n - 1);
      StepIsOnDisk(StateAt(s0, cmds, n - 1), cmds[n - 1]);
    }
  }

  lemma {:induction false} FreshIsOnDisk(s: State)
    requires Initial(s)
    ensures OnDisk(s)
  {
  }

  // ---------- what a submission stands for ----------

  /** What was submitted is a commit that descends from the base the workspace was given, and is not that base. */
  ghost predicate Submits(g: Git, w: Workspace) {
    w.submitted.Some? ==> Contains(g, w.submitted.value.commit, w.base) && w.submitted.value.commit != w.base
  }

  ghost predicate AllSubmit(g: Git, workspaces: map<string, Workspace>) {
    forall id :: id in workspaces ==> Submits(g, workspaces[id])
  }

  lemma {:induction false} SubmissionSurvives(g: Git, h: Git, workspaces: map<string, Workspace>)
    requires AllSubmit(g, workspaces) && Evolves(g, h)
    ensures AllSubmit(h, workspaces)
  {
  }

  lemma {:induction false} InspectionSubmits(s: State, id: string, trunk: Option<string>)
    requires AllSubmit(s.git, s.workspaces)
    ensures AllSubmit(s.git, Inspected(s, id, trunk).0.workspaces)
  {
    hide WorktreeHead, Contains;
  }

  lemma {:induction false} WorkspaceStepSubmits(s: State, c: Command)
    requires IsWorkspaceCommand(c) && AllSubmit(s.git, s.workspaces)
    ensures AllSubmit(s.git, Step(s, c).0.workspaces)
  {
    if !c.AddWorkspace? {
      InspectionSubmits(s, c.id, c.trunk);
      InspectedShape(s, c.id, c.trunk);
    }
    hide Inspected, Contains, Live;
  }

  /** Other commands leave the workspaces alone. */
  lemma {:induction false} WorkspacesUntouched(s: State, c: Command)
    requires !IsWorkspaceCommand(c) && !c.Restart? && (c.Create? ==> |c.outcomes| == |c.workspaces|)
    ensures Step(s, c).0.workspaces == s.workspaces
  {
    hide StepCreate, StepAudit, StepMerge, StepRetireIntegration;
    match c
    case Create(_, _, _, _, _, _, _) => CreateShape(s, c);
    case Audit(_, _, _) => AuditShape(s, c);
    case Merge(_, _, _) => MergeShape(s, c);
    case RetireIntegration(_, _, _, _) => RetirementShape(s, c);
    case Project(_) =>
    case Observe(_, _, _) =>
    case Outside(_) =>
  }

  lemma {:induction false} StepSubmits(s: State, c: Command)
    requires Kept(s) && OnDisk(s) && Legal(s, c) && AllSubmit(s.git, s.workspaces)
    ensures AllSubmit(Step(s, c).0.git, Step(s, c).0.workspaces)
  {
    hide *;
    LegalCreate(s, c);
    StepKeeps(s, c);
    if c.Restart? {
      RestartReadsDisk(s);
      DiskHasWorkspaces(s);
    } else if IsWorkspaceCommand(c) {
      WorkspaceStepSubmits(s, c);
    } else {
      WorkspacesUntouched(s, c);
    }
    SubmissionSurvives(s.git, Step(s, c).0.git, Step(s, c).0.workspaces);
  }

  /** In every run, whatever others do to Git and however often the manager restarts. */
  lemma {:induction false} SubmissionsDescend(s0: State, cmds: seq<Command>, n: nat)
    requires Run(s0, cmds) && AllSubmit(s0.git, s0.workspaces) && n <= |cmds|
    ensures AllSubmit(StateAt(s0, cmds, n).git, StateAt(s0, cmds, n).workspaces)
  {
    hide Step, Legal, AllSubmit, Kept, OnDisk, Evolves;
    if n > 0 {
      var s, c := StateAt(s0, cmds, n - 1), cmds[n - 1];
      SubmissionsDescend(s0, cmds, n - 1);
      RunKeeps(s0, cmds, n - 1);
      RestartLosesOnlyWithdrawals(s0, cmds, n - 1);
      assert Legal(s, c);
      StepSubmits(s, c);
    }
  }

  lemma {:induction false} DiskHasWorkspaces(s: State)
    requires OnDisk(s)
    ensures s.savedWorkspaces == s.workspaces
  {
  }

  lemma {:induction false} LegalCreate(s: State, c: Command)
    requires Legal(s, c)
    ensures c.Create? ==> |c.outcomes| == |c.workspaces|
  {
  }

  // ---------- the manager ----------

  predicate EligibleRow(row: Integration) {
    row.projection.Some? && row.projection.value.eligible
  }

  /**
   The target was at the audited target head and is at this commit now; on a valid
   repository that commit holds the old head. Nothing else moved.
   */
  ghost predicate TargetFollows(g: Git, h: Git, row: Integration, commit: string) {
    && Tip(g, row.target) == Some(row.targetHead) && WorktreeHead(g, row.path) == Some(row.head)
    && h == g.(branches := g.branches[row.target := commit])
    && (ValidGit(g) ==> Contains(h, commit, row.targetHead))
  }

  lemma {:induction false} FastForwardFollows(g: Git, target: string, tip: string)
    requires target in g.branches && FastForward(g, target, tip).Some?
    ensures var h := FastForward(g, target, tip).value;
            && target in h.branches && h == g.(branches := g.branches[target := h.branches[target]])
            && (ValidGit(g) ==> Contains(h, h.branches[target], g.branches[target]))
  {
    assert g.branches[target := g.branches[target]] == g.branches;
  }

  class Manager {
    var git: Git
    var workspaces: map<string, Workspace>
    var rows: map<string, Integration>
    var saved: map<string, Integration>
    var savedWorkspaces: map<string, Workspace>

    ghost function Now(): State
      reads this
    {
      State(git, workspaces, rows, saved, savedWorkspaces)
    }

    method CheckCandidates(target: string, ids: seq<string>) returns (refusal: Option<string>)
      ensures refusal == CreateRefusal(Now(), target, ids)
    {
      if target !in git.branches { return Some("MISSING_BRANCH"); }
      if ids == [] { return Some("CANDIDATE_REQUIRED"); }
      for i := 0 to |ids|
        invariant forall j :: 0 <= j < i ==> ids[j] in workspaces
      {
        if ids[i] !in workspaces { return Some("MISSING_WORKTREE"); }
      }
      for i := 0 to |ids|
        invariant forall j :: 0 <= j < i ==> workspaces[ids[j]].identity == git.identity
      {
        if workspaces[ids[i]].identity != git.identity { return Some("REPOSITORY_MISMATCH"); }
      }
      for i := 0 to |ids|
        invariant forall j :: 0 <= j < i ==> workspaces[ids[j]].submitted.Some?
      {
        if workspaces[ids[i]].submitted.None? { return Some("UNCOMMITTED"); }
      }
      for i := 0 to |ids|
        invariant forall j :: 0 <= j < i ==> workspaces[ids[j]].submitted.value.inScope
      {
        if !workspaces[ids[i]].submitted.value.inScope { return Some("SCOPE_VIOLATION"); }
      }
      refusal := None;
    }

    /** The merge loop; it stops at the first candidate Git refuses. */
    method MergeCandidates(branch: string, commits: seq<string>, outcomes: seq<Outcome>)
      returns (status: MergeStatus, conflicts: set<string>)
      requires |commits| == |outcomes|
      modifies `git
      ensures (git, status, conflicts) == MergeAll(old(git), branch, commits, outcomes, 0)
    {
      status, conflicts := CLEAN_MERGE, {};
      var i := 0;
      while i < |commits|
        invariant 0 <= i <= |commits| && status == CLEAN_MERGE && conflicts == {}
        invariant MergeAll(git, branch, commits, outcomes, i) == MergeAll(old(git), branch, commits, outcomes, 0)
      {
        var merge := MergeOne(git, branch, commits[i], outcomes[i]);
        if merge.None? {
          conflicts := Unmerged(outcomes[i]);
          status := if conflicts != {} then TEXT_CONFLICT else MERGE_ABORTED;
          break;
        }
        git := merge.value;
        i := i + 1;
      }
    }

    method CreateIntegration(c: Command) returns (reply: Reply)
      requires c.Create? && |c.outcomes| == |c.workspaces|
      modifies this
      ensures (Now(), reply) == StepCreate(old(Now()), c)
    {
      hide MergeAll, CreateRefusal;
      var refusal := CheckCandidates(c.target, c.workspaces);
      if refusal.Some? { return Failed(refusal.value); }
      if c.branch in git.branches || c.path in git.worktrees { return Failed("GIT_COMMAND_FAILED"); }
      assert CreateRefusal(old(Now()), c.target, c.workspaces).None?;
      PassedChecks(old(Now()), c.target, c.workspaces);
      var at := git.branches[c.target];
      var commits := Commits(State(git, workspaces, rows, saved, savedWorkspaces), c.workspaces);
      git := WithWorktree(git, c.branch, c.path, at);
      var status, files := MergeCandidates(c.branch, commits, c.outcomes);
      if !status.CLEAN_MERGE? { git := Dirty(git, c.path); }
      if !c.basesFound || c.branch !in git.branches { return Failed("GIT_COMMAND_FAILED"); }
      var stale := false;
      for i := 0 to |c.workspaces|
        invariant stale <==> exists j :: 0 <= j < i && workspaces[c.workspaces[j]].base != at
      {
        if workspaces[c.workspaces[i]].base != at { stale := true; }
      }
      var row := Integration(
        workspaces[c.workspaces[0]].change, c.target, at, commits, c.branch, c.path, git.branches[c.branch],
        status, files, stale, true, "NOT_PUBLISHED", None, None, "", false);
      rows := rows[c.id := row];
      saved, savedWorkspaces := rows, workspaces;
      reply := Created(row);
    }

    method AuditIntegration(c: Command) returns (reply: Reply)
      requires c.Audit?
      modifies this
      ensures (Now(), reply) == StepAudit(old(Now()), c)
      ensures git == old(git)
      ensures forall id :: id in rows && EligibleRow(rows[id]) && !(id in old(rows) && EligibleRow(old(rows)[id])) ==>
                && id == c.id && StandsAtItsHeads(git, rows[id])
                && rows[id].projection.value.head == rows[id].head
                && rows[id].projection.value.target == rows[id].targetHead
                && c.findings.Some? && Acceptable(rows[id], c.findings.value)
      ensures reply.Projected? ==>
                && c.id in old(rows) && c.findings.Some? && StandsAtItsHeads(git, old(rows)[c.id])
                && (reply.projection.eligible <==> Acceptable(old(rows)[c.id], c.findings.value))
      ensures reply.Failed? ==> saved == old(saved)
    {
      if c.id !in rows { return Failed("MISSING_INTEGRATION"); }
      if !c.available { return Failed("INTEGRATION_AUTHORITY_UNAVAILABLE"); }
      var row := rows[c.id];
      if row.path !in git.worktrees { return Failed("GIT_COMMAND_FAILED"); }
      if !git.worktrees[row.path].clean { return Failed("DIRTY_WORKTREE"); }
      var head := WorktreeHead(git, row.path);
      if head.None? { return Failed("GIT_COMMAND_FAILED"); }
      if head.value != row.head {
        rows := rows[c.id := Invalidated(row, "STALE_INTEGRATION_HEAD")];
        return Failed("STALE_INTEGRATION_HEAD");
      }
      var target := Tip(git, row.target);
      if target.None? { return Failed("GIT_COMMAND_FAILED"); }
      if target.value != row.targetHead {
        rows := rows[c.id := Invalidated(row, "STALE_TARGET_HEAD")];
        return Failed("STALE_TARGET_HEAD");
      }
      if c.findings.None? { return Failed("INTEGRATION_AUDIT_FAILED"); }
      var projection := Verdict(row, c.findings.value);
      VerdictMeaning(row, c.findings.value);
      hide Verdict, Shows, Acceptable;
      rows := rows[c.id := row.(projection := Some(projection))];
      saved, savedWorkspaces := rows, workspaces;
      reply := Projected(projection);
    }

    method ProjectMerge(c: Command) returns (reply: Reply)
      requires c.Project?
      modifies this
      ensures (Now(), reply) == StepProject(old(Now()), c)
      ensures git == old(git) && (c.id in rows ==> !EligibleRow(rows[c.id]))
      ensures forall id :: id in old(rows) && id != c.id ==> id in rows && rows[id] == old(rows)[id]
    {
      if c.id !in rows { return Failed("MISSING_INTEGRATION"); }
      var row := rows[c.id];
      var projection := Projection(row.head, row.targetHead, {"TRUSTED_INTEGRATION_AUDIT_REQUIRED"}, false, false);
      rows := rows[c.id := row.(projection := Some(projection))];
      saved, savedWorkspaces := rows, workspaces;
      reply := Projected(projection);
    }

    method MergeAuthorized(c: Command) returns (reply: Reply)
      requires c.Merge?
      modifies this
      ensures (Now(), reply) == StepMerge(old(Now()), c)
      ensures reply.Merged? ==>
                && c.id in old(rows) && EligibleRow(old(rows)[c.id]) && OwnerNow(c.principal, c.now)
                && TargetFollows(old(git), git, old(rows)[c.id], reply.commit)
      ensures !reply.Merged? ==> git == old(git) && (c.id in rows ==> rows[c.id].merged == old(rows)[c.id].merged)
    {
      hide OwnerNow, Contains, ValidGit, FastForward, HeadOf;
      if c.id !in rows { return Failed("MISSING_INTEGRATION"); }
      var row := rows[c.id];
      if row.projection.None? || !row.projection.value.eligible { return Failed("MERGE_NOT_ELIGIBLE"); }
      if !OwnerNow(c.principal, c.now) { return Failed("OWNER_AUTHORIZATION_REQUIRED"); }
      if git.root.head != OnBranch(row.target) || !git.root.clean { return Failed("HUMAN_WORKTREE_UNAVAILABLE"); }
      var target := Tip(git, row.target);
      if target != Some(row.targetHead) {
        rows := rows[c.id := Invalidated(row, "STALE_TARGET_HEAD")];
        saved, savedWorkspaces := rows, workspaces;
        return Failed("STALE_TARGET_HEAD");
      }
      var head := WorktreeHead(git, row.path);
      if head.None? { return Failed("GIT_COMMAND_FAILED"); }
      if head.value != row.head || row.projection.value.head != head.value
         || row.projection.value.target != target.value {
        rows := rows[c.id := Invalidated(row, "STALE_INTEGRATION_HEAD")];
        saved, savedWorkspaces := rows, workspaces;
        return Failed("STALE_INTEGRATION_HEAD");
      }
      if row.branch !in git.branches { return Failed("GIT_COMMAND_FAILED"); }
      var moved := FastForward(git, row.target, git.branches[row.branch]);
      if moved.None? { return Failed("GIT_COMMAND_FAILED"); }
      FastForwardFollows(git, row.target, git.branches[row.branch]);
      git := moved.value;
      var merged := git.branches[row.target];
      rows := rows[c.id := row.(merged := Some(merged), mergedBy := c.principal.id,
                                publication := "PENDING_INDEXER_OBSERVATION")];
      saved, savedWorkspaces := rows, workspaces;
      reply := Merged(merged);
    }

    method ObserveMerged(c: Command) returns (reply: Reply)
      requires c.Observe?
      modifies this
      ensures (Now(), reply) == StepObserve(old(Now()), c)
      ensures git == old(git)
      ensures forall id :: id in old(rows) && rows[id].publication != old(rows)[id].publication ==>
                && id == c.id && old(rows)[id].publication == "PENDING_INDEXER_OBSERVATION"
                && HeadOf(git, git.root) == rows[id].merged
    {
      if c.id !in rows { return Failed("MISSING_INTEGRATION"); }
      var row := rows[c.id];
      if row.publication != "PENDING_INDEXER_OBSERVATION" { return Failed("OBSERVATION_NOT_PENDING"); }
      if !c.available { return Failed("INTEGRATION_AUTHORITY_UNAVAILABLE"); }
      var current := HeadOf(git, git.root);
      if current.None? { return Failed("GIT_COMMAND_FAILED"); }
      if current != row.merged { return Failed("MERGED_HEAD_CHANGED"); }
      if c.receipt.None? { return Failed("OBSERVATION_FAILED"); }
      rows := rows[c.id := row.(publication := c.receipt.value)];
      saved, savedWorkspaces := rows, workspaces;
      reply := Observed(c.receipt.value);
    }

    /** One inspection: what it saw is saved, unless Git failed first. */
    method InspectWorktree(id: string, trunk: Option<string>) returns (error: Option<string>)
      modifies this
      ensures (Now(), error) == Inspected(old(Now()), id, trunk)
    {
      if id !in workspaces { return Some("MISSING_WORKTREE"); }
      var w := workspaces[id];
      if w.retired { return None; }
      if w.path !in git.worktrees {
        saved, savedWorkspaces := rows, workspaces;
        return None;
      }
      var head := WorktreeHead(git, w.path);
      if head.None? { return Some("GIT_COMMAND_FAILED"); }
      if trunk.None? { return Some("MISSING_BRANCH"); }
      if trunk.value !in git.branches { return Some("GIT_COMMAND_FAILED"); }
      workspaces := workspaces[id := w.(current := head.value)];
      saved, savedWorkspaces := rows, workspaces;
      error := None;
    }

    method CreateAgentWorktree(c: Command) returns (reply: Reply)
      requires c.AddWorkspace?
      modifies this
      ensures (Now(), reply) == StepAddWorkspace(old(Now()), c)
      ensures reply.Quiet? ==> Tip(git, c.branch) == Some(c.base) && savedWorkspaces == workspaces
    {
      if git.root.head.Detached? { return Failed("DETACHED_HEAD"); }
      if c.base !in git.past { return Failed("INVALID_BASE_COMMIT"); }
      if c.refusal.Some? { return Failed(c.refusal.value); }
      if c.branch in git.branches || c.path in git.worktrees { return Failed("GIT_COMMAND_FAILED"); }
      git := WithWorktree(git, c.branch, c.path, c.base);
      workspaces := workspaces[c.id := Workspace(c.change, git.identity, c.base, c.path, c.base, None, false)];
      saved, savedWorkspaces := rows, workspaces;
      reply := Quiet;
    }

    /** A submission is the head Git shows at that moment, below the frozen base, and is on disk at once. */
    method SubmitCommittedResult(c: Command) returns (reply: Reply)
      requires c.Submit?
      modifies this
      ensures (Now(), reply) == StepSubmit(old(Now()), c)
      ensures git == old(git) && rows == old(rows)
      ensures reply.Quiet? ==>
                && c.id in workspaces && savedWorkspaces == workspaces && saved == rows
                && workspaces[c.id].submitted == Some(Submission(workspaces[c.id].current, c.inScope))
                && Submits(git, workspaces[c.id])
                && (c.id in old(workspaces) && !old(workspaces)[c.id].retired ==>
                      WorktreeHead(git, workspaces[c.id].path) == Some(workspaces[c.id].current))
    {
      var error := InspectWorktree(c.id, c.trunk);
      if error.Some? { return Failed(error.value); }
      var w := workspaces[c.id];
      if !w.retired && w.path in git.worktrees {
        if git.worktrees[w.path].head.Detached? { return Failed("DETACHED_HEAD"); }
        if !git.worktrees[w.path].clean { return Failed("DIRTY_WORKTREE"); }
      }
      if w.current == w.base { return Failed("UNCOMMITTED"); }
      if w.path !in git.worktrees || !Contains(git, w.current, w.base) { return Failed("BASE_IDENTITY_MISMATCH"); }
      workspaces := workspaces[c.id := w.(submitted := Some(Submission(w.current, c.inScope)), retired := false)];
      saved, savedWorkspaces := rows, workspaces;
      reply := Quiet;
    }

    method RetireWorktree(c: Command) returns (reply: Reply)
      requires c.RetireWorkspace?
      modifies this
      ensures (Now(), reply) == StepRetireWorkspace(old(Now()), c)
      ensures git.past == old(git.past) && git.branches == old(git.branches) && rows == old(rows)
    {
      ghost var before := Now();
      InspectedShape(before, c.id, c.trunk);
      hide Inspected, WorktreeHead;
      var error := InspectWorktree(c.id, c.trunk);
      if error.Some? { return Failed(error.value); }
      var w := workspaces[c.id];
      if w.retired { return Quiet; }
      if w.path in git.worktrees && git.worktrees[w.path].head.OnBranch? && !git.worktrees[w.path].clean {
        return Failed("DIRTY_WORKTREE");
      }
      if w.path !in git.worktrees || !c.removed { return Failed("GIT_COMMAND_FAILED"); }
      git := Unlinked(git, w.path);
      workspaces := workspaces[c.id := w.(retired := true)];
      saved, savedWorkspaces := rows, workspaces;
      reply := Quiet;
    }

    /** Retiring an integration takes its worktree away and nothing else: commits, branches and the verdict stay. */
    method RetireIntegration(c: Command) returns (reply: Reply)
      requires c.RetireIntegration?
      modifies this
      ensures (Now(), reply) == StepRetireIntegration(old(Now()), c)
      ensures git.past == old(git.past) && git.branches == old(git.branches) && workspaces == old(workspaces)
      ensures reply.Quiet? && !old(rows)[c.id].retired ==>
                rows[c.id].path !in git.worktrees && rows[c.id] == old(rows)[c.id].(retired := true)
    {
      if c.id !in rows { return Failed("MISSING_INTEGRATION"); }
      var row := rows[c.id];
      if row.retired { return Quiet; }
      if row.path !in git.worktrees { return Failed("MISSING_WORKTREE"); }
      var w := git.worktrees[row.path];
      if !w.clean && !c.abort { return Failed("DIRTY_WORKTREE"); }
      if !w.clean && !c.aborted { return Failed("MERGE_ABORTED"); }
      git := git.(worktrees := git.worktrees[row.path := w.(clean := true)]);
      var head := HeadOf(git, w);
      if head.None? { return Failed("GIT_COMMAND_FAILED"); }
      if head.value != row.head { return Failed("WORKTREE_HEAD_MISMATCH"); }
      if !c.removed { return Failed("GIT_COMMAND_FAILED"); }
      git := Unlinked(git, row.path);
      rows := rows[c.id := row.(retired := true)];
      saved, savedWorkspaces := rows, workspaces;
      reply := Quiet;
    }
  }

  lemma {:induction false} PassedChecks(s: State, target: string, ids: seq<string>)
    requires CreateRefusal(s, target, ids).None?
    ensures target in s.git.branches && ids != []
    ensures forall i :: 0 <= i < |ids| ==>
      ids[i] in s.workspaces && s.workspaces[ids[i]].submitted.Some? && s.workspaces[ids[i]].submitted.value.inScope
  {
  }
}
