/**
 Complete runs of the merge protocol: a merge of a commit nobody audited, a withdrawn
 verdict that a restart brings back, and one that stays withdrawn.
 */
module GitRuns {
  import opened Prelude
  import opened GitMerge

  // ---------- a detached worktree ----------

  lemma {:induction false} EvolvedIsValid(g: Git, h: Git)
    requires Evolves(g, h)
    ensures ValidGit(h)
  {
  }

  lemma {:induction false} MovedEvolves(g: Git, k: Git, h: Git)
    requires Evolves(g, k) && h.past == k.past && ValidGit(h)
    ensures Evolves(g, h)
  {
  }

  lemma {:induction false} SamePastIsValid(g: Git, h: Git)
    requires ValidGit(g) && h.past == g.past && h.branches == g.branches
    ensures ValidGit(h)
  {
    assert forall a, b :: Contains(h, a, b) <==> Contains(g, a, b);
  }

  function Agents(): map<string, Workspace> {
    map["w" := Workspace("change", "repo", "t", "q", "c", Some(Submission("c", true)), false)]
  }

  function Before(): State {
    State(
      Git(map["t" := {"t"}, "c" := {"t", "c"}], map["main" := "t"], map[],
          Worktree(OnBranch("main"), true), "repo"),
      Agents(), map[], map[], Agents())
  }

  function Built(): Integration {
    Integration("change", "main", "t", ["c"], "b", "p", "m", CLEAN_MERGE, {}, false, true,
                "NOT_PUBLISHED", None, None, "", false)
  }

  function AllGood(): Findings {
    Findings(true, true, false, true, true, false, false, false)
  }

  function DetachedRun(): seq<Command> {
    [Create("i", "b", "p", "main", ["w"], [Clean("m")], true),
     Audit("i", true, Some(AllGood())),
     Outside(Git(map["t" := {"t"}, "c" := {"t", "c"}, "m" := {"m", "t", "c"}, "x" := {"x", "m", "t", "c"}],
                 map["main" := "t", "b" := "x"], map["p" := Worktree(Detached("m"), true)],
                 Worktree(OnBranch("main"), true), "repo")),
     Merge("i", Principal("o", "LOCAL_OWNER", "OWNER", 1), 0)]
  }

  function AfterCreate(): State {
    var g := Before().git;
    Before().(
      git := Git(g.past["m" := {"m", "t", "c"}], map["main" := "t", "b" := "m"],
                 map["p" := Worktree(OnBranch("b"), true)], g.root, "repo"),
      rows := map["i" := Built()], saved := map["i" := Built()])
  }

  function AfterAudit(): State {
    var row := Built().(projection := Some(Projection("m", "t", {}, true, true)));
    AfterCreate().(rows := map["i" := row], saved := map["i" := row])
  }

  lemma {:induction false} DetachedCreate()
    ensures Step(Before(), DetachedRun()[0]).0 == AfterCreate()
  {
    var c := DetachedRun()[0];
    assert CreateRefusal(Before(), "main", ["w"]) == None;
    assert Commits(Before(), ["w"]) == ["c"];
    var g0 := WithWorktree(Before().git, "b", "p", "t");
    var g := Advance(g0, "b", "c", "m");
    assert MergeOne(g0, "b", "c", Clean("m")) == Some(g);
    assert MergeAll(g, "b", ["c"], [Clean("m")], 1) == (g, CLEAN_MERGE, {});
    assert MergeAll(g0, "b", ["c"], [Clean("m")], 0) == (g, CLEAN_MERGE, {});
    assert g.past["m"] == {"m", "t", "c"};
    assert g == AfterCreate().git;
  }

  lemma {:induction false} DetachedAudit()
    ensures Step(AfterCreate(), DetachedRun()[1]).0 == AfterAudit()
  {
    assert Diagnostics(Built(), AllGood()) == {};
  }

  function AfterMove(): State {
    AfterAudit().(git := DetachedRun()[2].git)
  }

  lemma {:induction false} AuditedGitIsValid()
    ensures ValidGit(AfterAudit().git)
  {
    var c := DetachedRun()[0];
    assert c.Create? && |c.outcomes| == |c.workspaces|;
    assert Initial(Before()) && Kept(Before());
    DetachedCreate();
    hide Initial, ValidGit, StepCreate, DetachedRun, Before;
    CreateKeeps(Before(), c);
  }

  lemma {:induction false} DetachedMove()
    ensures Evolves(AfterAudit().git, DetachedRun()[2].git)
    ensures Step(AfterAudit(), DetachedRun()[2]).0 == AfterMove()
  {
    AuditedGitIsValid();
    var g, h := AfterAudit().git, DetachedRun()[2].git;
    var k := Advance(g, "b", "m", "x");
    assert g.branches["b"] == "m" && "m" in g.past && "x" !in g.past;
    MovedPast(g);
    hide ValidGit, AfterAudit, Advance, Evolves;
    AdvanceEvolves(g, "b", "m", "x");
    EvolvedIsValid(g, k);
    SamePastIsValid(k, h);
    MovedEvolves(g, k, h);
  }

  lemma {:induction false} MovedPast(g: Git)
    requires g == AfterAudit().git
    ensures var h, k := DetachedRun()[2].git, Advance(g, "b", "m", "x"); h.past == k.past && h.branches == k.branches
  {
    hide ValidGit;
    assert Advance(g, "b", "m", "x").past["x"] == {"x", "m", "t", "c"};
  }

  lemma {:induction false} MovedState()
    ensures var s, c := AfterMove(), DetachedRun()[3];
      && c == Merge("i", Principal("o", "LOCAL_OWNER", "OWNER", 1), 0) && "i" in s.rows
      && s.rows["i"] == Built().(projection := Some(Projection("m", "t", {}, true, true)))
      && s.git.root == Worktree(OnBranch("main"), true)
      && Tip(s.git, "main") == Some("t") && Tip(s.git, "b") == Some("x") && WorktreeHead(s.git, "p") == Some("m")
      && Contains(s.git, "x", "t") && !Contains(s.git, "t", "x")
  {
  }

  lemma {:induction false} DetachedMerge()
    ensures Step(AfterMove(), DetachedRun()[3]).1 == Merged("x")
  {
    MovedState();
    hide AfterMove, DetachedRun, Contains, HeadOf;
    var g := AfterMove().git;
    assert FastForward(g, "main", "x") == Some(g.(branches := g.branches["main" := "x"]));
  }

  /**
   With the worktree detached and its branch moved on, every check passes and the target
   ends at a commit nobody audited.
   */
  lemma {:induction false} DetachedWorktreeMergesUnaudited()
    ensures Run(Before(), DetachedRun())
    ensures Step(StateAt(Before(), DetachedRun(), 3), DetachedRun()[3]).1 == Merged("x")
    ensures "i" in StateAt(Before(), DetachedRun(), 3).rows && StateAt(Before(), DetachedRun(), 3).rows["i"].head == "m"
  {
    hide *;
    var cmds := DetachedRun();
    DetachedCommands();
    DetachedCreate();
    DetachedAudit();
    DetachedMove();
    DetachedMerge();
    EmptyStart();
    StateAtZero(Before(), cmds);
    StateAtNext(Before(), cmds, 0);
    StateAtNext(Before(), cmds, 1);
    StateAtNext(Before(), cmds, 2);
    forall k | 0 <= k < |cmds| ensures Legal(StateAt(Before(), cmds, k), cmds[k]) {
      StateAtNext(Before(), cmds, k);
      OwnCommandIsLegal(StateAt(Before(), cmds, k), cmds[k]);
    }
    IsRun(Before(), cmds);
  }

  lemma {:induction false} DetachedCommands()
    ensures var cmds := DetachedRun();
            && |cmds| == 4 && WellFormed(cmds) && (forall k :: 0 <= k < 4 && k != 2 ==> !cmds[k].Outside?)
            && cmds[2].Outside?
    ensures "i" in AfterMove().rows && AfterMove().rows["i"].head == "m"
  {
  }

  // ---------- a verdict that comes back ----------

  /** The target advances behind the manager's back, the next audit notices, and the manager restarts. */
  function RevivedRun(): seq<Command> {
    [DetachedRun()[0], DetachedRun()[1], Outside(AdvancedGit()), Audit("i", true, Some(AllGood())), Restart]
  }

  function AdvancedGit(): Git {
    var g := AfterCreate().git;
    g.(branches := map["main" := "c", "b" := "m"])
  }

  function WithdrawnRow(): Integration {
    Invalidated(AfterAudit().rows["i"], "STALE_TARGET_HEAD")
  }

  lemma {:induction false} AdvancedEvolves()
    ensures Evolves(AfterAudit().git, AdvancedGit())
  {
    AuditedGitIsValid();
    var g, h := AfterAudit().git, AdvancedGit();
    assert h.past == g.past && g.branches.Keys == {"main", "b"};
    assert "c" in g.past && "m" in g.past;
    hide AfterCreate, AfterAudit;
    assert forall a, b :: Contains(h, a, b) <==> Contains(g, a, b);
  }

  function Moved(): State {
    AfterAudit().(git := AdvancedGit())
  }

  function Withdrawn(): State {
    Moved().(rows := map["i" := WithdrawnRow()])
  }

  lemma {:induction false} AdvancedAuditIsStale()
    ensures Step(Moved(), RevivedRun()[3]) == (Withdrawn(), Failed("STALE_TARGET_HEAD"))
  {
    hide Diagnostics, Invalidated;
    assert AfterAudit().rows["i" := WithdrawnRow()] == map["i" := WithdrawnRow()];
  }

  lemma {:induction false} RevivedSteps()
    ensures var cmds := RevivedRun();
            && |cmds| == 5 && WellFormed(cmds) && Initial(Before())
            && (forall k :: 0 <= k < 5 && k != 2 ==> !cmds[k].Outside?)
            && cmds[2] == Outside(AdvancedGit())
            && Step(Before(), cmds[0]).0 == AfterCreate()
            && Step(AfterCreate(), cmds[1]).0 == AfterAudit()
            && Step(AfterAudit(), cmds[2]).0 == Moved()
            && Step(Moved(), cmds[3]).0 == Withdrawn()
            && Step(Withdrawn(), cmds[4]).0 == Moved()
  {
    RevivedCommands();
    DetachedCreate();
    DetachedAudit();
    AdvancedAuditIsStale();
    QuietSteps();
    EmptyStart();
    hide *;
  }

  lemma {:induction false} RevivedCommands()
    ensures var cmds := RevivedRun();
            && |cmds| == 5 && WellFormed(cmds) && cmds[0] == DetachedRun()[0] && cmds[1] == DetachedRun()[1]
            && cmds[2] == Outside(AdvancedGit()) && cmds[4] == Restart
            && (forall k :: 0 <= k < 5 && k != 2 ==> !cmds[k].Outside?)
  {
  }

  lemma {:induction false} QuietSteps()
    ensures Step(AfterAudit(), Outside(AdvancedGit())).0 == Moved()
    ensures Step(Withdrawn(), Restart).0 == Moved()
  {
  }

  lemma {:induction false} EmptyStart()
    ensures Initial(Before())
  {
  }

  /** A verdict about a target head that is gone is in force again after a restart. */
  lemma {:induction false} RestartRevivesVerdict()
    ensures Run(Before(), RevivedRun())
    ensures var j := Subject("i", "main", "t", "m");
            && !Vouches(StateAt(Before(), RevivedRun(), 4).rows, j)
            && Vouches(StateAt(Before(), RevivedRun(), 5).rows, j)
            && Tip(StateAt(Before(), RevivedRun(), 5).git, "main") == Some("c")
  {
    hide *;
    var cmds := RevivedRun();
    RevivedSteps();
    AdvancedEvolves();
    StateAtZero(Before(), cmds);
    StateAtNext(Before(), cmds, 0);
    StateAtNext(Before(), cmds, 1);
    StateAtNext(Before(), cmds, 2);
    StateAtNext(Before(), cmds, 3);
    StateAtNext(Before(), cmds, 4);
    RevivedVouches();
    forall k | 0 <= k < |cmds| ensures Legal(StateAt(Before(), cmds, k), cmds[k]) {
      StateAtNext(Before(), cmds, k);
      OwnCommandIsLegal(StateAt(Before(), cmds, k), cmds[k]);
    }
    IsRun(Before(), cmds);
  }

  lemma {:induction false} OwnCommandIsLegal(s: State, c: Command)
    requires c.Create? ==> |c.outcomes| == |c.workspaces|
    requires c.Outside? ==> Evolves(s.git, c.git)
    ensures Legal(s, c)
  {
  }

  lemma {:induction false} StateAtZero(s0: State, cmds: seq<Command>)
    requires WellFormed(cmds)
    ensures StateAt(s0, cmds, 0) == s0
  {
  }

  lemma {:induction false} IsRun(s0: State, cmds: seq<Command>)
    requires Initial(s0) && WellFormed(cmds)
    requires forall k :: 0 <= k < |cmds| ==> Legal(StateAt(s0, cmds, k), cmds[k])
    ensures Run(s0, cmds)
  {
    hide Legal, StateAt, Initial;
  }

  lemma {:induction false} RevivedVouches()
    ensures var j := Subject("i", "main", "t", "m");
            && Vouches(Moved().rows, j) && !Vouches(Withdrawn().rows, j)
            && Tip(Moved().git, "main") == Some("c")
  {
  }

  // ---------- and one that stays withdrawn ----------

  /** As before, but an agent submits its result after the verdict was withdrawn. */
  function SubmittedRun(): seq<Command> {
    [DetachedRun()[0], DetachedRun()[1], Outside(AgentGit()), Audit("i", true, Some(AllGood())),
     Submit("w", Some("main"), true), Restart]
  }

  /** The advanced repository with the agent's branch and worktree. */
  function AgentGit(): Git {
    AdvancedGit().(
      branches := map["main" := "c", "b" := "m", "a" := "c"],
      worktrees := AdvancedGit().worktrees["q" := Worktree(OnBranch("a"), true)])
  }

  function Joined(): State {
    AfterAudit().(git := AgentGit())
  }

  function JoinedWithdrawn(): State {
    Joined().(rows := map["i" := WithdrawnRow()])
  }

  lemma {:induction false} AgentGitEvolves()
    ensures Evolves(AfterAudit().git, AgentGit())
  {
    AdvancedEvolves();
    var g, h := AdvancedGit(), AgentGit();
    assert h.past == g.past && "c" in g.past && "m" in g.past && h.branches.Keys == {"main", "b", "a"};
    hide AfterCreate, AfterAudit, AdvancedGit, AgentGit;
    assert forall a, b :: Contains(h, a, b) <==> Contains(g, a, b);
  }

  lemma {:induction false} AgentAuditIsStale()
    ensures Step(Joined(), SubmittedRun()[3]) == (JoinedWithdrawn(), Failed("STALE_TARGET_HEAD"))
  {
    hide Diagnostics, Invalidated;
    assert AfterAudit().rows["i" := WithdrawnRow()] == map["i" := WithdrawnRow()];
  }

  lemma {:induction false} SubmittedCommands()
    ensures var cmds := SubmittedRun();
            && |cmds| == 6 && WellFormed(cmds) && cmds[0] == DetachedRun()[0] && cmds[1] == DetachedRun()[1]
            && cmds[2] == Outside(AgentGit()) && cmds[3].Audit? && cmds[3].id == "i"
            && cmds[4] == Submit("w", Some("main"), true) && cmds[5] == Restart
            && (forall k :: 0 <= k < 6 && k != 2 ==> !cmds[k].Outside?)
  {
  }

  lemma {:induction false} SubmissionSaves()
    ensures Saves(JoinedWithdrawn(), Submit("w", Some("main"), true))
  {
    hide WithdrawnRow, StepSubmit;
    assert JoinedWithdrawn().workspaces == Agents();
    assert WorktreeHead(AgentGit(), "q") == Some("c");
  }

  lemma {:induction false} JoinedVouches()
    ensures Step(AfterAudit(), Outside(AgentGit())).0 == Joined()
    ensures var j := Subject("i", "main", "t", "m"); Vouches(Joined().rows, j) && Vouches(Joined().saved, j)
  {
    hide AgentGit;
  }

  lemma {:induction false} SubmissionDecidesNothing(s0: State, cmds: seq<Command>, n: nat, j: Subject)
    requires WellFormed(cmds) && n < |cmds| && cmds[n].Submit?
    ensures Undecided(s0, cmds, n, n + 1, j)
    ensures Saves(StateAt(s0, cmds, n), cmds[n]) ==> !Unsaved(s0, cmds, n, n + 1)
  {
    hide Saves, StateAt;
  }

  /** The submission wrote the withdrawn verdict to disk, so the restart does not bring it back. */
  lemma {:induction false} SubmissionKeepsVerdictWithdrawn()
    ensures Run(Before(), SubmittedRun())
    ensures !Vouches(StateAt(Before(), SubmittedRun(), 6).rows, Subject("i", "main", "t", "m"))
  {
    hide *;
    var cmds, j := SubmittedRun(), Subject("i", "main", "t", "m");
    SubmittedCommands();
    DetachedCreate();
    DetachedAudit();
    AgentGitEvolves();
    AgentAuditIsStale();
    SubmissionSaves();
    JoinedVouches();
    EmptyStart();
    StateAtZero(Before(), cmds);
    StateAtNext(Before(), cmds, 0);
    StateAtNext(Before(), cmds, 1);
    StateAtNext(Before(), cmds, 2);
    StateAtNext(Before(), cmds, 3);
    SubmissionDecidesNothing(Before(), cmds, 4, j);
    WithdrawnVerdictReturnsIff(Before(), cmds, 3, 5, j);
    forall k | 0 <= k < |cmds| ensures Legal(StateAt(Before(), cmds, k), cmds[k]) {
      StateAtNext(Before(), cmds, k);
      OwnCommandIsLegal(StateAt(Before(), cmds, k), cmds[k]);
    }
    IsRun(Before(), cmds);
  }
}
