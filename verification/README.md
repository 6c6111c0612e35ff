# Verified models of the Rintel core

Rintel turns a repository into an evidence graph and answers whether a relation is
present, missing or observed. These Dafny modules model the parts whose answers have to
be right, and prove what the code relies on, over all inputs and all runs. Loops over
mutable state are methods with invariants, proved against specification functions or
directly against what they promise; the theorems are about those specifications.

| module | models |
|---|---|
| `TraceDecoder` | the stack automaton over enter and exit lines, and the call forest behind a trace |
| `RuntimeEvidence`, `RuntimeCapture`, `RuntimeExample` | the run artifact validator, the runtime answer, what a capture writes, and concrete runs |
| `IncrementalCache` | the Clang cache: invalidation, reuse, cutoff, publication over arbitrary histories |
| `DirectCallAudit`, `AbsenceProof` | the syntax-tree audit, the coverage certificate and the MISSING answer |
| `SnapshotStore`, `SnapshotSupport` | staging, receipts, publication and rollback of snapshots; which facts carry receipts of their own |
| `DependencyClosure` | the include loop and the affected set with its reasons |
| `GraphPaths`, `GraphKernel`, `DesignCycle`, `Neighbors` | reachability, transitive reduction, longest path, cycle search, budgeted breadth-first search |
| `NodeUpsert` | merging observations of one node |
| `ArchModel`, `Hierarchy`, `ArchStore`, `ArchFork` | baselines and diffs, the component hierarchy, edits, forks |
| `GitMerge`, `GitRuns` | agent worktrees, submissions and audited integrations with Git moved by others in between; concrete runs |
| `ExecutionAuthority` | bounded capture, artifact budget, receipts |
| `FixedFormMap` | alignment of rewritten Fortran text and its position maps |
| `Prelude`, `Ordering` | counters, options, sorted keys and stable sorting |

Digests are injective: a digest is a constructor around its content. SQL tables are maps,
sets or row sequences. Clang, the number reader, the symbol reader and path functions are
arbitrary functions given as parameters. Git is a set of branches over commits that carry
everything they contain. Clocks, fresh ids and what external tools report are inputs.

Where the code does something its own documentation does not say, the model follows the
code and a lemma shows it:

- The cache records only the files a front end read, so a header added earlier on the
  include path goes unnoticed (`ShadowingHeaderGoesUnnoticed`); soundness holds if and only
  if the analysis is determined by what is recorded.
- An edge row with count zero is accepted by the validator and answered as OBSERVED
  (`SomeZeroCountRowIsObserved`); the answer is right if and only if the rows that name the
  pair add up to more than zero (`ObservedIsHonestIff`). A captured run in which a third
  endpoint took part can never be validated (`CapturedArtifactValidates`, `ThirdEndpointIsRejected`).
- On cyclic graphs the transitive reduction may lose reachability, beside a self-loop always
  (`SelfLoopLosesReachability`); `KeptReachesSameIff` says exactly when it does not. The
  longest path forgets all but the last of parallel edges (`ParallelEdgeIsForgotten`,
  `PathsCoverChainsIff`).
- The merge checks the worktree's HEAD but fast-forwards to the branch tip; with a detached
  worktree the two differ (`DetachedWorktreeMergesUnaudited`). An audit that meets moved heads
  withdraws its verdict only in memory, so a restart brings it back (`RestartRevivesVerdict`)
  unless some command in between wrote the tables (`WithdrawnVerdictReturnsIff`); a mere
  inspection or submission does (`SubmissionKeepsVerdictWithdrawn`).
- An index run can raise after its commit, so a failed run may have changed the current
  snapshot (`LateFailureMovesCurrent`, `FailureKeepsCurrentIff`). The support check exempts
  everything the parent graph has: after a file is redone, the directory admitted on its
  behalf is published without a receipt of its own (`SupportMayLiveInAnAncestorOnly`,
  `DeltaOwnsSupportIff`).
- Textual edge ids do not determine the edge when a path holds `:node:` (`FileIdsCollide`);
  `EdgeIdsDetermineEdgesIff` says for which sets of ids they do, and the ids of functions
  are such a set (`SymbolIdsAreUsual`).
- The two-pointer scan is called exact for deletions; it keeps every character's own origin
  exactly for plain ones (`SurvivorsKeepOriginsIffPlain`, `EqualNeighbourTakesTheOrigin`)
  and gives up after 64 characters (`LongSkipLosesThePlace`). A statement that starts with
  an exclamation mark and a blank is mapped like a comment and shifted by two
  (`RowExactIffNotCommentLike`, `BangRowIsShifted`).

Automatic induction is switched off on every lemma, so each induction is written out.

## Model

| member | source | states |
|---|---|---|
| `TraceDecoder.DecodeBoundedTrace` | src/rintel/runtime_alignment_evidence.py:203-258 | the one-pass decoder with its stack and counters: COMPLETE exactly when some call forest is printed by the event lines and the END line carries its size and no write failure; then the enter and exit totals are the size of every such forest, and the entered and edge counters are its frames and parent-child pairs |
| `TraceDecoder.CompleteIffForest` | src/rintel/runtime_alignment_evidence.py:203-258 | the same equivalence on the specification of the decoder, for every input |
| `TraceDecoder.CertifiedForestIsUnique` | src/rintel/runtime_alignment_evidence.py:204-251 | the forest behind a complete trace is unique |
| `TraceDecoder.WrittenTraceDecodes` | src/rintel/runtime_alignment_evidence.py:203-258 | round trip: the lines a tracer writes for a forest over known symbols, with any call sites, decode as COMPLETE with that forest |
| `TraceDecoder.ScanOfPrint` | src/rintel/runtime_alignment_evidence.py:220-244 | scanning the print of a forest restores the stack and adds its size to both counters; the only possible complaint is an unmapped offset |
| `TraceDecoder.EdgesOfPrint` | src/rintel/runtime_alignment_evidence.py:224-234 | each pair counter grows by exactly the direct calls of the forest plus its top-level frames under the current caller |
| `TraceDecoder.EnteredOfPrint` | src/rintel/runtime_alignment_evidence.py:224-230 | each entry counter grows by exactly the frames of that function |
| `TraceDecoder.Rebuild` | src/rintel/runtime_alignment_evidence.py:220-246 | an error-free scan that ends with an empty stack can be read back as one forest per open frame |
| `TraceDecoder.ReadOfEndLine` | src/rintel/runtime_alignment_evidence.py:236-250 | round trip of the last line: whatever three numbers a writer spells into it are the ones read back, and it has the prefix the decoder looks for |
| `RuntimeEvidence.ValidateBoundedArtifact` | src/rintel/runtime_alignment_evidence.py:399-547 | the validator with all its loops returns the verdict defined declaratively: header, digests, endpoint receipts, edge rows against the raw trace, observation flags, calibration |
| `RuntimeEvidence.ReceiptPinsEvidence` | src/rintel/runtime_alignment_evidence.py:407-471 | what the checks before decoding are for: two artifacts accepted under one coverage receipt, in whatever worlds, are of one run over the same binary, source and raw trace contents, so their decoded traces agree |
| `RuntimeEvidence.CompareEdges` | src/rintel/runtime_alignment_evidence.py:482-511 | rows are accepted exactly when every row binds two endpoints of the bridge and, pair by pair, the row counts add up to what the raw trace has |
| `RuntimeEvidence.ActualEdges` | src/rintel/runtime_alignment_evidence.py:489-509 | the accumulated dictionary holds the sum of the row counts for every pair, and stops at the first unbound row |
| `RuntimeEvidence.ExpectedEdges` | src/rintel/runtime_alignment_evidence.py:482-488 | the expected dictionary holds the trace count of exactly the pairs between endpoints |
| `RuntimeEvidence.DeriveRuntime` | src/rintel/cross_layer_alignment.py:270-345 | the whole answer read off the relation and the run: UNMEASURED, with a limitation that holds, unless the run was made at the revision, of the source, binary and build and in the scope the relation names, is the run asked for and verified; otherwise OBSERVED iff a row names the two functions exactly and through the bridge, NOT_OBSERVED iff none does and the coverage is complete for exactly this relation; references and limitations follow |
| `RuntimeEvidence.ScopeReasonMeaning` | src/rintel/cross_layer_alignment.py:242-266 | the scope check passes exactly if all its requirements hold, and what it names is not met |
| `RuntimeEvidence.VerifiedIff` | src/rintel/runtime_alignment_evidence.py:399-547 | the validator says verified exactly if the binary, source and trace are the files the receipt names, command and build are those of the identity, the two endpoints are bound to it and form the bridge, the rows name the endpoints at their offsets and add up to the decoded trace, the observations are those of the trace, the calibration proves the target and the completeness follows |
| `RuntimeEvidence.NotObservedTraceHasNoSuchCall` | src/rintel/cross_layer_alignment.py:270-345 | a NOT_OBSERVED answer of the bounded provider with distinct offsets means that the raw trace prints a call forest in which the caller was entered and never directly encloses the callee |
| `RuntimeEvidence.NotObservedIsCalibrated` | src/rintel/runtime_alignment_evidence.py:518-541 | and that a validated calibration run of the same binary exists, for the same two nodes at the same offsets, whose trace does contain the pair when its counts are positive |
| `RuntimeEvidence.ObservedIsHonestIff` | src/rintel/cross_layer_alignment.py:308-345 | for any edge rows: OBSERVED is answered exactly when the raw trace has the pair, if and only if the rows that name the pair, where there are any, add up to more than zero |
| `RuntimeEvidence.ObservedIffTraceHasPair` | src/rintel/cross_layer_alignment.py:308-345 | the instance for positive counts, as every capture writes them |
| `RuntimeEvidence.ZeroCountRowIsObserved` | src/rintel/cross_layer_alignment.py:308-327 | adding a row with count zero to any NOT_OBSERVED artifact keeps it valid and turns the answer to OBSERVED although the trace has no such pair |
| `RuntimeEvidence.VerifiedRowsCountTrace` | src/rintel/runtime_alignment_evidence.py:482-511 | the rows of a validated run name the audited pair as often as its raw trace has it |
| `RuntimeEvidence.WitnessIffRow` | src/rintel/cross_layer_alignment.py:312-324 | in a validated run a row witnesses the relation exactly when it names the audited pair |
| `RuntimeEvidence.SameBridgeSameEndpoints` | src/rintel/runtime_alignment_evidence.py:194-200 | equal relation bridges pin two validated runs to the same nodes and the same offsets |
| `RuntimeCapture.CollectRows` | src/rintel/runtime_alignment_evidence.py:343-356 | the rows written by a capture: one per recorded pair whose two offsets belong to endpoints |
| `RuntimeCapture.CapturedCoverage` | src/rintel/runtime_alignment_evidence.py:283-341 | what a capture claims: integrity, entry, observation and completeness exactly as the trace, the exit code and a proven target of the same binary allow |
| `RuntimeCapture.CapturedArtifactValidates` | src/rintel/runtime_alignment_evidence.py:261-397 | what a capture writes always passes the header checks, and passes the whole validator if and only if no third endpoint of the bridge took part in a recorded pair and the calibration it names is stored under that run id, validates by itself, carries the same relation bridge and has the pair |
| `RuntimeCapture.CapturedRunIsAnswered` | src/rintel/runtime_alignment_evidence.py:261-397 | from the tracer to the answer: such a run is OBSERVED exactly when its trace has the pair, and NOT_OBSERVED exactly when a whole trace of a successful run entered the source without the pair and the calibration had it |
| `RuntimeCapture.RowsOfPairs` | src/rintel/runtime_alignment_evidence.py:343-356 | the rows of a capture add up to exactly the decoded counts |
| `RuntimeCapture.ForeignRowIsRejected` | src/rintel/runtime_alignment_evidence.py:489-508 | a recorded pair with a third endpoint makes the captured artifact fail the row check |
| `RuntimeExample.ThirdEndpointIsRejected` | src/rintel/runtime_alignment_evidence.py:489-508 | a concrete run with three endpoints, for every number format that can be read back: the caller calls the audited target and a third function, every header check passes, and the run's own artifact is rejected |
| `RuntimeExample.SilentRunIsNotObserved` | src/rintel/runtime_alignment_evidence.py:261-397 | two runs of one binary, for every number format that can be read back: the run without the call, calibrated by the run with it, is answered NOT_OBSERVED |
| `RuntimeExample.SomeZeroCountRowIsObserved` | src/rintel/cross_layer_alignment.py:308-327 | so there is a world in which a row with count zero turns NOT_OBSERVED into OBSERVED |
| `IncrementalCache.ProviderCache.Run` | src/rintel/clang_provider/incremental.py:120-236 | one run with its invalidation, reuse and counting loops; read off the rows: it fails for the first row whose file is absent, otherwise every file of all rows has an entry with the identity its last row asks for, a file is reparsed exactly when it is new, its identity differs or a recorded dependency moved, a reparsed entry reports this analysis and any other is the cached one, and the facts returned are those of all entries; the cache moves only if the run succeeded and publishes |
| `IncrementalCache.Invalidate` | src/rintel/clang_provider/incremental.py:130-152 | reparse, identity-invalidated and dependency-invalidated sets, by their meaning |
| `IncrementalCache.Rebuild` | src/rintel/clang_provider/incremental.py:154-196 | units, facts and counters after the rebuild loop, or the first front-end failure in file order |
| `IncrementalCache.CacheIsSoundIffDetermined` | src/rintel/clang_provider/incremental.py:120-236 | over every history of file edits, configuration changes, runs and immediate, late or skipped publishes the facts of a run equal those of parsing everything from scratch, if and only if the analysis of a unit depends only on its identity and the contents of its recorded dependencies; then they are, as a multiset and in the order of their ids, what the compiler gives for the last row of every file, or the first absent file, or the least file it gives up on |
| `IncrementalCache.RunMatchesScratch` | src/rintel/clang_provider/incremental.py:120-197 | one run from any truthful cache equals the run from scratch, and is what the rows ask for, errors included |
| `IncrementalCache.UnitsMeaning` | src/rintel/clang_provider/incremental.py:123-130 | one unit for each file of all rows, with the identity its last row asks for; otherwise the first row whose file is absent |
| `IncrementalCache.FreshEntryMeaning` | src/rintel/clang_provider/incremental.py:164-194 | an entry written by an analysis has its identity, its facts sorted, its dependencies, the digests of those that exist, and a semantic digest that counts every meaning as often as it occurs |
| `IncrementalCache.ScratchReadsTheRows` | src/rintel/clang_provider/incremental.py:123-197 | analysing everything gives what the rows ask for |
| `IncrementalCache.ReplayKeepsInvariant` | src/rintel/clang_provider/incremental.py:86-118 | over any history every cached entry was the true analysis of some earlier file system |
| `IncrementalCache.OtherwiseSomeHistoryIsStale` | src/rintel/clang_provider/incremental.py:134-152 | if two file systems agree on everything recorded and the analysis still differs, a four-event history returns stale facts |
| `IncrementalCache.ShadowingHeaderGoesUnnoticed` | src/rintel/clang_provider/incremental.py:143-151 | a concrete case: a new header earlier on the include path is not recorded, so the cache is not sound for such a front end |
| `IncrementalCache.CutoffMeansSameResult` | src/rintel/clang_provider/incremental.py:198-217 | what each cutoff label means for the entries and the facts of the run |
| `IncrementalCache.FactCountsSplitTheResult` | src/rintel/clang_provider/incremental.py:157-196 | changed and reused fact counts add up to the number of returned facts |
| `IncrementalCache.QuietReparseKeepsEntries` | src/rintel/clang_provider/incremental.py:161-168 | a run that reparses nothing changes no entry |
| `IncrementalCache.IdentityIffSemanticsKept` | src/rintel/clang_provider/incremental.py:197-201 | the result identity is unchanged exactly when the same units keep the same semantic digests |
| `GraphKernel.FillRow` | src/rintel/analysis/graphkernel.py:134-140 | the stack-driven search fills one row with exactly the nodes reachable by at least one edge, touching no other row |
| `GraphKernel.ReachMatrix` | src/rintel/analysis/graphkernel.py:131-140 | the whole matrix is reachability, on any graph, cyclic ones included |
| `GraphKernel.TransitiveReduction` | src/rintel/analysis/graphkernel.py:124-154 | the kept edges are exactly the non-redundant pairs, each once, with the kind of the last parallel edge |
| `GraphKernel.LastKindIs` | src/rintel/analysis/graphkernel.py:126-130 | the kind kept for a pair is that of its last row |
| `GraphKernel.KeptIsTheTransitiveReduction` | src/rintel/analysis/graphkernel.py:124-154 | on an acyclic graph the kept edges reach exactly what the input reaches, are contained in every edge set with that reachability, and none can be dropped |
| `GraphKernel.KeptReachesSameIff` | src/rintel/analysis/graphkernel.py:124-154 | on any graph, cyclic ones included, the kept edges reach exactly what the input reaches if and only if every node on a cycle has one way out and any two successors on one cycle are entered through a third one outside it |
| `GraphKernel.SelfLoopLosesReachability` | src/rintel/analysis/graphkernel.py:142-153 | an instance: a node with a self-loop and another way out always loses reachability |
| `GraphKernel.TwoCycleIsKept` | src/rintel/analysis/graphkernel.py:142-153 | another: a cycle without branches is kept whole |
| `GraphKernel.LongestPath` | src/rintel/analysis/graphkernel.py:156-179 | for any topological order and weights of any sign the result is a genuine path with the reported weight and no path weighs more; a cycle and the empty graph are reported as the source does |
| `GraphKernel.BestInto` | src/rintel/analysis/graphkernel.py:168-174 | the best path into a node, given the best paths into its predecessors |
| `GraphKernel.NoChainIsHeavier` | src/rintel/analysis/graphkernel.py:164-179 | when among parallel edges the last one is a heaviest, no chain of edge rows weighs more than the reported value |
| `GraphKernel.PathsCoverChainsIff` | src/rintel/analysis/graphkernel.py:164-174 | no chain of edge rows weighs more than its node path if and only if among parallel edges the last row is a heaviest one |
| `GraphKernel.Kernel.Build` | src/rintel/analysis/graphkernel.py:59-71 | the built graph mirrors the given edges under an invertible name index |
| `GraphKernel.Kernel.Reduce` | src/rintel/analysis/graphkernel.py:124-154 | the named reduction is the reduction of the mirrored graph, or the not-built error |
| `GraphKernel.Kernel.Longest` | src/rintel/analysis/graphkernel.py:156-183 | the named longest path, with the errors for an unbuilt and an empty graph |
| `DesignCycle.CycleSearch.Visit` | src/rintel/design_lifecycle/design_drc.py:74-85 | the recursion with a shared done set terminates; it reports true only if there is a cycle, and otherwise settles the node and restores the active set |
| `DesignCycle.CycleSearch.AnyCycle` | src/rintel/design_lifecycle/design_drc.py:87-92 | trying all roots reports true exactly when some node reaches itself |
| `DesignCycle.CycleFinding` | src/rintel/design_lifecycle/design_drc.py:13-93 | the finding is emitted if and only if the planned relations contain a directed cycle, self-loops included |
| `Neighbors.Traverse` | src/rintel/db.py:994-1017 | exact shortest distances, a spanning tree with one edge fewer than seen nodes, at most max(1, max_nodes) nodes, and everything within depth when the budget is not reached |
| `Neighbors.ScanNode` | src/rintel/db.py:1006-1014 | scanning one frontier node keeps all of it and either exhausts the node or the budget |
| `Neighbors.NeighborsOf` | src/rintel/db.py:994-1025 | the returned nodes are the seen ones that exist, at their exact distances, with the tree edges |
| `DependencyClosure.IncludeClosure` | src/rintel/indexer.py:619-637 | the repeat-until-stable loop ends with the least set that contains the semantic seeds and every file with a row that resolves to, or shares the last path component with, a file of the set; each addition has its reason |
| `DependencyClosure.LeastClosedIgnoresOrder` | src/rintel/indexer.py:622-637 | that set does not depend on the order of the include rows |
| `DependencyClosure.Close` | src/rintel/indexer.py:596-681 | affected is the seeds, the include dependents of the seeds whose digest differs, and the users of changed definitions by call, symbolic edge or import, nothing else; the reasons map has exactly those keys and every listed reason is justified |
| `DependencyClosure.CollectChanged` | src/rintel/indexer.py:642-661 | the changed names are those of definitions in exactly one of the old and new sets |
| `DependencyClosure.AddCallers` | src/rintel/indexer.py:662-668 | call sites of changed definitions are added with their reason |
| `NodeUpsert.NodeTable.Upsert` | src/rintel/db.py:204-263 | one insert or merge: the whole new table and its locations, or a collision that leaves it unchanged |
| `NodeUpsert.ObservationsInAnyOrder` | src/rintel/db.py:204-263 | for any order of observations of one descriptor: a collision exactly when the kind is a function, method or subroutine and two definitions come from different paths; otherwise the row is defined iff some observation is and stores the last definition, or the last declaration at the first path, every extra value is that of the first observation that has it, and its locations are distinct, were observed and cover exactly the paths seen |
| `ExecutionAuthority.Pump` | src/rintel/execution_authority.py:170-225 | each pipe keeps exactly the first bytes up to its cap; the loop ends at the first moment when both streams ended and the process is gone or a stopped process outlived its grace period; the reason is that of the first turn in which somebody cancelled, the deadline passed or a pipe delivered too much |
| `ExecutionAuthority.ReadReady` | src/rintel/execution_authority.py:193-210 | one turn over the ready pipes keeps the prefix property and only ever adds the output limit reason |
| `ExecutionAuthority.CollectArtifacts` | src/rintel/execution_authority.py:244-267 | greedy budgeting: every row is decided by the budget the earlier rows used, blobs are exactly the captured files, and the flag tells whether one was dropped for size |
| `ExecutionAuthority.Perform` | src/rintel/execution_authority.py:291-419 | the whole receipt read off the profile and the circumstances: revisions hold the very bytes of all inputs, nothing runs with an input missing or another revision expected, a run whose inputs changed is INPUT_DRIFT, and PASS or FAIL is given exactly by policy and exit code to a whole, undisturbed run |
| `ExecutionAuthority.Authority.Execute` | src/rintel/execution_authority.py:291-419 | refusals of the source; otherwise one stored receipt bound to request and profile that reads as the circumstances were, a test run exactly for a conclusive test, and the lineage kept |
| `ExecutionAuthority.ArgvStaysInProfile` | src/rintel/execution_authority.py:151-160 | a request chooses nothing but parameters: the executable is the fixed one of the profile, every other word its own or one of its finite choices |
| `ExecutionAuthority.Authority.TestRunLookup` | src/rintel/execution_authority.py:503-536 | a test run is offered exactly while every declared input holds the very bytes recorded in its receipt |
| `ExecutionAuthority.SameRevisionIff` | src/rintel/execution_authority.py:142-151 | two revisions are equal exactly when all declared inputs have equal contents |
| `ExecutionAuthority.ArgvIff` | src/rintel/execution_authority.py:153-162 | parameters are accepted exactly if each slot is given once, by one of its choices, and nothing else is given |
| `FixedFormMap.FixOriginsFollow` | src/rintel/adapters/fortran_fixed_form.py:414-444 | exactly one origin per output character, each that of the source index chosen by the greedy scan |
| `FixedFormMap.MapChars` | src/rintel/adapters/fortran_fixed_form.py:447-478 | one position per final character: its own origin when it aligns, otherwise that of the last aligned character |
| `FixedFormMap.MappedCharMeaning` | src/rintel/adapters/fortran_fixed_form.py:447-478 | an aligned character reports a source position holding the same character; an inserted one repeats its predecessor |
| `FixedFormMap.SourcesEmbedIffAligned` | src/rintel/adapters/fortran_fixed_form.py:414-444 | for any two texts the sources are a strictly increasing embedding of equal characters if and only if every step aligns |
| `FixedFormMap.DeletionsAlignIffSkipsAreShort` | src/rintel/adapters/fortran_fixed_form.py:417-441 | when the output is the input with characters deleted, they embed if and only if no skip exceeds 64 characters, and then it is the leftmost embedding |
| `FixedFormMap.SurvivorsKeepOriginsIffPlain` | src/rintel/adapters/fortran_fixed_form.py:417-421 | every surviving character keeps its own origin if and only if no deleted stretch exceeds 64 characters or holds the character that survives right behind it |
| `FixedFormMap.EqualNeighbourTakesTheOrigin` | src/rintel/adapters/fortran_fixed_form.py:424-444 | of two equal characters the first is deleted: the survivor is reported at the place of the deleted one |
| `FixedFormMap.LongSkipLosesThePlace` | src/rintel/adapters/fortran_fixed_form.py:436-441 | a deletion of 65 characters whose survivor is reported at another character |
| `FixedFormMap.SourcesNeverGoBack` | src/rintel/adapters/fortran_fixed_form.py:424-444 | the source indices never decrease, whatever the texts |
| `FixedFormMap.Assemble` | src/rintel/adapters/fortran_fixed_form.py:317-352 | the final pass: all character positions, the text offset and the position offset of every line |
| `FixedFormMap.BuildByteMap` | src/rintel/adapters/fortran_fixed_form.py:354-370 | one entry per byte plus one; every byte of a line points at the character that is being read there |
| `FixedFormMap.Normalize` | src/rintel/adapters/fortran_fixed_form.py:317-370 | the normalization describes its lines |
| `FixedFormMap.Normalization.CharIndex` | src/rintel/adapters/fortran_fixed_form.py:71-78 | in range for every byte offset, negative ones and those past the end included |
| `FixedFormMap.Normalization.OrigPt` | src/rintel/adapters/fortran_fixed_form.py:50-56 | defined for every row and column and always the position of some character, or (1, 1) |
| `FixedFormMap.Normalization.OrigEnd` | src/rintel/adapters/fortran_fixed_form.py:58-64 | defined for every row and column and always right behind some character, or (1, 1) |
| `FixedFormMap.AsciiPointIsExact` | src/rintel/adapters/fortran_fixed_form.py:50-78 | in ASCII text a point inside a line is answered with that line's own map, start and end alike |
| `FixedFormMap.StatementPointsComeFromTheirCharacter` | src/rintel/adapters/fortran_fixed_form.py:344-370 | end to end: a statement column answers with the place its own character came from |
| `FixedFormMap.RowExactIffNotCommentLike` | src/rintel/adapters/fortran_fixed_form.py:332-344 | an unchanged statement row keeps every position if and only if its text does not start with an exclamation mark and a blank |
| `FixedFormMap.BangRowIsShifted` | src/rintel/adapters/fortran_fixed_form.py:332-344 | such a row with its normalization: the third column answers with the place of the first |
| `GitMerge.Manager.CreateIntegration` | src/rintel/git_workspace.py:403-464 | the candidate checks in order, the worktree, the merge loop and the saved row, or the error with what Git had already changed |
| `GitMerge.Manager.MergeCandidates` | src/rintel/git_workspace.py:427-437 | the loop stops at the first candidate Git refuses and reports its unmerged files |
| `GitMerge.Manager.AuditIntegration` | src/rintel/git_workspace.py:466-511 | Git is left alone, and a row becomes eligible only if Git stands at exactly the heads the row names, the worktree is clean, the merge is clean and in scope, build and tests pass and all other findings are good; a refusal saves nothing |
| `GitMerge.Manager.MergeAuthorized` | src/rintel/git_workspace.py:550-599 | on success an eligible row and a current owner were required, the target stood at the audited target head and stands at the returned commit, which contains the old target, and no other branch, worktree or commit changed; on a refusal Git is as before |
| `GitMerge.MergesAreAudited` | src/rintel/git_workspace.py:466-599 | in every interleaving of commands, restarts and outside Git movement a successful merge is the owner's and starts from exactly the target head some earlier audit saw while Git stood at exactly the audited heads, with a clean merge in scope, passing build and tests and all other findings good; if the branch still ends at the worktree head, the target ends at exactly the audited integration head, which contains the old target and every candidate |
| `GitMerge.EndsAtAuditedHeadIff` | src/rintel/git_workspace.py:574-587 | a merge ends at the audited head if and only if the integration branch ends there, or there was nothing to merge |
| `GitMerge.AttachedWorktreeMergesTheAuditedHead` | src/rintel/git_workspace.py:574-587 | a worktree that still has its branch checked out meets that condition |
| `GitRuns.DetachedWorktreeMergesUnaudited` | src/rintel/git_workspace.py:574-587 | without it: a complete run in which every check passes and the target ends at a commit nobody audited |
| `GitMerge.UndisturbedAuditMerges` | src/rintel/git_workspace.py:466-599 | after a passed audit with nothing moved, the owner's merge on a clean target goes through to the audited head |
| `GitMerge.MergeAllKeeps` | src/rintel/git_workspace.py:427-437 | the merge loop only adds commits, moves only its own branch, and on success its head contains the start and every candidate |
| `GitMerge.StepKeeps` | src/rintel/git_workspace.py:141-657 | every command keeps: a clean row's head contains target and candidates, and an eligible verdict speaks about exactly the row's heads with no diagnostics |
| `GitMerge.OnlyMergesMoveBranches` | src/rintel/git_workspace.py:141-657 | nothing but a successful merge moves a branch that already exists |
| `GitMerge.VouchedMeansAudited` | src/rintel/git_workspace.py:513-519 | an eligible verdict, in memory or saved, always goes back to a passed audit of those heads |
| `GitMerge.VerdictIsSound` | src/rintel/git_integration_authority.py:261-290 | a verdict keeps rows sound and is eligible exactly for a clean merge in scope with passing build and tests and all other findings good |
| `GitMerge.VerdictMeaning` | src/rintel/git_integration_authority.py:245-275 | each diagnostic is given exactly when its finding is so |
| `GitMerge.AuditMeaning` | src/rintel/git_workspace.py:466-511 | exactly which audits give a verdict, and what is saved |
| `GitMerge.CreateMeaning` | src/rintel/git_workspace.py:403-464 | an integration is created from submitted candidates in scope alone; its row names their commits in order, the target head and the branch head |
| `GitMerge.MergeAllMeaning` | src/rintel/git_workspace.py:427-437 | the merge loop as a chain of merges, each adding one commit on top of both sides, up to the first one Git refuses |
| `GitMerge.MergeMeaning` | src/rintel/git_workspace.py:550-599 | a merge succeeds if and only if the row is eligible about the heads Git has, the owner asks before the authorization expires, the target is checked out clean and the branch can be fast-forwarded |
| `GitMerge.ObserveMeaning` | src/rintel/git_workspace.py:601-622 | a merge is observed exactly while it is pending and the root stands at the merged commit |
| `GitMerge.SubmitMeaning` | src/rintel/git_workspace.py:333-375 | a submission goes through exactly for new work on top of the base in a clean worktree on a branch |
| `GitMerge.RetireIntegrationMeaning` | src/rintel/git_workspace.py:624-657 | an integration is retired exactly while its worktree stands at its head, an unfinished merge aborted on request |
| `GitMerge.IntegrationRefused` | src/rintel/git_workspace.py:466-657 | every refusal of a command about an integration is for a reason that holds |
| `GitMerge.WorkspaceRefused` | src/rintel/git_workspace.py:141-401 | so is every refusal of a command about a workspace |
| `GitMerge.ClaimsGrantNothing` | src/rintel/git_workspace.py:530-556 | after projecting a caller's claims the merge is refused |
| `GitMerge.WithdrawnVerdictReturnsIff` | src/rintel/git_workspace.py:484-519 | over runs: a verdict that an audit withdrew because a head had moved is back after a restart if and only if no command in between wrote the tables, nobody having passed the integration again; inspections, listings, submissions and retirements write them as much as integrations and merges do |
| `GitMerge.SavedByStep` | src/rintel/git_workspace.py:88-95 | the one writer stores workspaces and integrations together: after a command both saved tables are the ones in memory if the command reached its save, and the old ones if it did not |
| `GitMerge.RestartLosesOnlyWithdrawals` | src/rintel/git_workspace.py:78-95 | at every moment of every run a restart would lose nothing but withdrawn verdicts: the workspaces on disk are those in memory, and each integration is there as it is in memory or with the verdict that was withdrawn |
| `GitMerge.SubmissionsDescend` | src/rintel/git_workspace.py:333-375 | in every run that starts so, restarts and outside movement included, the commit a workspace has submitted contains the commit the workspace was created from |
| `GitMerge.Manager.SubmitCommittedResult` | src/rintel/git_workspace.py:333-375 | the inspection and its save first, then the refusals in order; what is recorded is the head Git shows at that moment, it contains the base, it is on disk at once, and Git and the integrations are left alone |
| `GitMerge.Manager.RetireIntegration` | src/rintel/git_workspace.py:624-657 | the refusals in order, an unfinished merge aborted first when asked, the worktree removed and the row saved as retired; commits, branches and workspaces stay |
| `GitRuns.RestartRevivesVerdict` | src/rintel/git_workspace.py:484-519 | a complete run: the target advances, the next audit notices, the manager restarts, and a verdict about a target head that is gone is in force |
| `GitRuns.SubmissionKeepsVerdictWithdrawn` | src/rintel/git_workspace.py:333-375 | the same run with a submission between the audit and the restart: the submission writes the withdrawn verdict, and the restart does not bring it back |
| `SnapshotStore.Store.NewSnapshotRow` | src/rintel/db.py:134-149 | a staging row newer than every earlier one, whatever the clock says |
| `SnapshotStore.Store.CurrentSnapshot` | src/rintel/db.py:162-167 | the newest published row |
| `SnapshotStore.Store.StageAndPublish` | src/rintel/indexer.py:433-531 | allocate, copy, fill, check support and publish, or fail |
| `SnapshotStore.Store.Run` | src/rintel/indexer.py:254-264 | one transaction: the committed tables afterwards, with every failure rolled back |
| `SnapshotStore.EveryPublishedFactIsSupported` | src/rintel/indexer.py:254-531 | from an empty store, over every sequence of successful and failed transactions, each fact of a published snapshot has a support receipt there or in an ancestor |
| `SnapshotStore.TransactKeeps` | src/rintel/indexer.py:433-531 | one transaction keeps that, and the order and parent links of the rows |
| `SnapshotStore.PublishedIsCurrent` | src/rintel/db.py:134-173 | a publishing transaction makes its own snapshot current even if its clock goes backwards; any other leaves all tables alone |
| `SnapshotStore.FailureKeepsCurrentIff` | src/rintel/indexer.py:254-264 | a transaction that raises leaves the current snapshot alone, unless it is an index run that raises late although nothing failed early, the input changed, the snapshot id is new, and all its work goes through and leaves every fact with a receipt or a place in the copied parent graph; exactly then the snapshot has moved |
| `SnapshotSupport.LateFailureMovesCurrent` | src/rintel/indexer.py:523-541 | a first index run whose telemetry fails after the commit raises, and its snapshot is current |
| `SnapshotStore.PublishedIsFrozen` | src/rintel/db.py:722-727 | no later transaction changes a published row, its facts or its receipts |
| `SnapshotStore.OverlayCopiesTheGraph` | src/rintel/coverage_authority/issuer.py:204-236 | a support overlay has exactly the graph of its base, all its receipts and the new ones |
| `SnapshotStore.NewFactsCarryReceipts` | src/rintel/db.py:814-827 | a fact the parent lacks is published only with a receipt of its own |
| `SnapshotSupport.OwnSupportIff` | src/rintel/db.py:814-827 | a published snapshot has a receipt of its own for every fact if and only if the work leaves no parent fact whose last receipt it dropped and did not replace, each fact followed through the work by itself |
| `SnapshotSupport.DeltaOwnsSupportIff` | src/rintel/indexer.py:472-531 | for the work of an incremental index run: if and only if each parent fact that remains was written again or has a receipt that no redone file owns |
| `SnapshotSupport.DeltaPublishes` | src/rintel/indexer.py:472-531 | an incremental run that writes every fact together with its receipt is never refused by the support check |
| `SnapshotSupport.FullPublishes` | src/rintel/indexer.py:472-531 | nor is a full run, and its snapshot holds exactly the facts it wrote |
| `SnapshotSupport.SupportMayLiveInAnAncestorOnly` | src/rintel/indexer.py:1446-1481 | a full run and an incremental one after a function was renamed: the directory around the file loses its only receipt, because a directory that exists is not admitted again, and is published without one |
| `SnapshotStore.StageEffect` | src/rintel/indexer.py:433-531 | everything one published snapshot changes |
| `SnapshotStore.ApplyMeaning` | src/rintel/db.py:721-812 | each staging operation fact by fact and receipt by receipt, and exactly when it raises |
| `SnapshotStore.CurrentIsNewest` | src/rintel/db.py:162-167 | in any table the current snapshot is the newest published one, the later row winning a tie |
| `DirectCallAudit.AuditDirectBody` | src/rintel/coverage_authority/audit.py:18-111 | the audit with its loops returns exactly the declared reasons and counts, and is exhaustive exactly for a body whose every call is direct, resolved, in the graph and reported |
| `DirectCallAudit.ExhaustiveIff` | src/rintel/coverage_authority/audit.py:18-111 | the audit is exhaustive if and only if no error was reported, the subject is a global function without static namesake and with a single body declared in its own file, no node of the body is a call of another kind, every call in it is a plain call whose callee expression holds exactly one reference, to a function the graph resolves and has the edge for, and the provider reported each target as often as the body calls it |
| `DirectCallAudit.CallMeaning` | src/rintel/coverage_authority/audit.py:69-101 | what the audit makes of a node, read off the tree: the direct target, no call, or refused for a stated reason |
| `DirectCallAudit.ReasonsListed` | src/rintel/coverage_authority/audit.py:29-111 | every reason is listed exactly when it holds |
| `DirectCallAudit.WalkReachesExactlyTheTree` | src/rintel/coverage_authority/audit.py:11-15 | the walk yields exactly the nodes of the tree |
| `DirectCallAudit.WalkVisitsEveryPlaceOnce` | src/rintel/coverage_authority/audit.py:11-15 | and every place of the tree once |
| `DirectCallAudit.CallsAreCounted` | src/rintel/coverage_authority/audit.py:69-101 | a target is counted once for each direct call of it |
| `AbsenceProof.Authority.IssueDirectStaticCall` | src/rintel/coverage_authority/issuer.py:60-281 | the issuer: without a certificate nothing changes; with one the base was current, indexed and completely read, and the certificate names what it was made from and is complete exactly for a C function whose single body is covered |
| `AbsenceProof.IssueSupports` | src/rintel/coverage_authority/issuer.py:184-236 | the new revision is current and has exactly the graph of its base, all its receipts, one for the subject and one for each reported call of a covered body |
| `AbsenceProof.IssueGoesThrough` | src/rintel/coverage_authority/issuer.py:60-281 | a request that may be issued, under an unused revision and undisturbed after its commit, always gets its certificate: no receipt of the overlay can fail |
| `AbsenceProof.Authority.DeriveStatic` | src/rintel/cross_layer_alignment.py:169-241 | the whole answer read off the tables: PRESENT exactly for a row that is the edge and has applicable support; MISSING exactly when no row is, the query is direct-static and a recorded certificate speaks about it and none of its inputs moved; otherwise UNKNOWN with reasons that hold |
| `AbsenceProof.AcceptedIff` | src/rintel/coverage_authority/validation.py:45-144 | a certificate is turned down exactly when it does not speak about the query or an input, the subject or its receipt is not as it was, and for a reason that holds |
| `AbsenceProof.MissingMeansNoCall` | src/rintel/cross_layer_alignment.py:169-241 | over every run of index transactions and certificates in which the ids of functions and of the ends of call edges never hold s, t, s:u and u:t together, whatever the ids of files and directories are: when MISSING is answered, the audited tree has exactly one body for the source, every call in it is plain and names, by the only reference in its callee expression, a function that is the only one of its name and is not the target; it is the tree the compiler would produce now, provided its analysis depends only on the inputs it reported |
| `AbsenceProof.IssueKeeps` | src/rintel/coverage_authority/issuer.py:171-281 | an issued certificate is bound to a published exact copy of the graph it was audited against |
| `AbsenceProof.CertificatesSurvive` | src/rintel/db.py:722-727 | later transactions never invalidate what a certificate stands for |
| `AbsenceProof.AcceptedTreeIsCurrent` | src/rintel/coverage_authority/validation.py:45-144 | while a certificate is accepted, the compiler would still produce the audited tree |
| `AbsenceProof.EdgeIdsCollideIff` | src/rintel/db.py:364-378 | two edges of one kind share their textual id if and only if their ends are the same or one pair is the other cut at a different colon |
| `AbsenceProof.EdgeIdsDetermineEdgesIff` | src/rintel/db.py:364-378 | over a set of node ids the edge ids determine the edges if and only if the set does not hold s, t, s:u and u:t for any text u |
| `AbsenceProof.UsualIdsAreFree` | src/rintel/identity.py:59-69 | ids that start with node: and hold :node: nowhere else form such a set |
| `AbsenceProof.SymbolIdsAreUsual` | src/rintel/identity.py:54-61 | every id of a symbol, being a kind and a digest, is of that form |
| `AbsenceProof.FileIdsCollide` | src/rintel/identity.py:59-69 | file ids need not: four files whose names hold :node: give two different edges with one id |
| `ArchModel.BuildBaseline` | src/rintel/archmodel.py:30-67 | one frozen document per component and one key per relation, in order |
| `ArchModel.ComputeDiff` | src/rintel/archmodel.py:79-211 | fails exactly when a claimed origin is missing from the baseline; otherwise all seven lists are those of the specification |
| `ArchModel.EmptyIffSameUpToOrigins` | src/rintel/archmodel.py:79-211 | all lists are empty if and only if the working model is the baseline with every id replaced by that of its copy: fields, parents, relation keys and mapping keys |
| `ArchModel.MovedMeansParentDiffers` | src/rintel/archmodel.py:126-152 | a matched component is reported moved exactly when its parent is not the copy of its baseline parent |
| `ArchModel.KeyRenames` | src/rintel/archmodel.py:155-163 | a relation gets a baseline key exactly when it joins the copies of that key's ends |
| `ArchModel.MatchedIsEverythingWithAnOrigin` | src/rintel/archmodel.py:103-106 | with distinct origins every component that has one is compared |
| `ArchModel.MatchedAreFirst` | src/rintel/archmodel.py:98-106 | of several components with one origin the first is compared |
| `Hierarchy.WouldCreateCycle` | src/rintel/server/api/workspaces.py:194-207 | true exactly when the component exists and the new parent is it or below it, in any table: cycles and missing parents included |
| `Hierarchy.ReparentKeepsHierarchyIff` | src/rintel/server/api/workspaces.py:439-449 | hanging a component under a parent keeps the hierarchy acyclic if and only if the guard is false |
| `Hierarchy.SubtreeRows` | src/rintel/db.py:1417-1430 | the recursive query terminates on an acyclic hierarchy and lists exactly the component and its descendants, each once, at its depth |
| `Hierarchy.DeepestFirstDescends` | src/rintel/db.py:1431-1432 | the sort puts deeper rows first |
| `ArchStore.Store.SubtreeMembers` | src/rintel/db.py:1460-1461 | the members are exactly the subtree, every child before its parent |
| `ArchStore.Store.DeleteSubtree` | src/rintel/db.py:1460-1489 | removes exactly the subtree and every relation and mapping touching it, returns the exact counts, is never refused and leaves everything else unchanged |
| `ArchStore.Store.DeleteRows` | src/rintel/db.py:1480-1483 | no single row deletion meets the restriction on children or relations |
| `ArchStore.Store.DeleteLeaf` | src/rintel/db.py:1438-1459 | without subtree a component goes, with its mappings, exactly when nothing hangs under it and no relation touches it |
| `ArchStore.Store.UpdateComponentRow` | src/rintel/server/api/workspaces.py:428-457 | a guarded update: refused for a foreign parent, a cycle or no field |
| `ArchStore.Store.InsertMappings` | src/rintel/db.py:1586-1605 | a batch of mappings is inserted whole, or rolled back at the first duplicate |
| `ArchStore.Store.CreateComponentRow` | src/rintel/db.py:1379-1415 | a component with its first mappings in the given model and under a parent of that model, or nothing |
| `ArchStore.EditKeeps` | src/rintel/db.py:1316-1625 | every component, relation and mapping edit keeps the tables valid (acyclic hierarchy, endpoints in the model, origins distinct and inside the baseline) and the baselines as they were |
| `ArchStore.AcceptsIff` | src/rintel/db.py:1316-1625 | exactly when each edit is accepted: no foreign parent, cycle, self-loop, duplicate relation, mapping or row id, and for a deletion without subtree nothing hanging under or touching the component |
| `ArchStore.EditLeaves` | src/rintel/db.py:1316-1625 | and exactly what tables an accepted edit leaves |
| `ArchStore.WithMappingsKeeps` | src/rintel/db.py:1586-1605 | a batch of mappings is inserted whole or not at all, never duplicating one |
| `ArchFork.ForkStoredModel` | src/rintel/db.py:1208-1288 | the stored tables after a fork: exactly the old rows, the frozen baseline and one copy of every row of the source model |
| `ArchFork.ForkModel` | src/rintel/db.py:1208-1288 | the fork: frozen baseline, rows inserted without parents, then linked, then relations and mappings |
| `ArchFork.ForkKeeps` | src/rintel/db.py:1208-1288 | a fork keeps the tables valid |
| `ArchFork.UpOfCopy` | src/rintel/db.py:1248-1254 | ancestors of a copy are the copies of the ancestors |
| `ArchFork.FreshForkHasNoDiff` | src/rintel/db.py:1208-1288 | right after the fork the model is its baseline up to origins and every list of the diff is empty |
| `ArchFork.DiffIsDefined` | src/rintel/archmodel.py:116-121 | after every sequence of forks and edits the unguarded baseline lookup finds its key, and the diff is empty if and only if the model is its baseline up to origin renaming |
| `ArchFork.BaselinesAreFrozen` | src/rintel/archmodel.py:6-10 | a baseline never changes once written, whatever happens to the source model |
| `ArchFork.EntitiesOfCopy` | src/rintel/db.py:1263-1273 | a copy has the copies of its component's mappings and no others |

## Left out

- AsciiPointIsExact: states exact positions for one byte per character only, because line starts are counted in characters while rows are looked up in bytes; for other text the map is proved to stay in range.
- StatementPointsComeFromTheirCharacter: likewise ASCII only.
- LongestPath: takes the topological order as an input with its specification; rustworkx is not part of this model, and weights are reals, so rounding is not modelled.
- MissingMeansNoCall: that the audited tree is the compiler's tree now assumes an analysis determined by the reported inputs, the same condition under which the Clang cache is sound.
- SupportMayLiveInAnAncestorOnly: the hash in a function's id is a short text, and the two runs are given by the facts they write, in the order of the indexer.
- MergesAreAudited: each command is atomic; Git moving in the middle of a command is not modelled.
- WrittenTraceDecodes: integer parsing is a parameter with its inverse; Python's int() also accepts signs, underscores and surrounding blanks.
- DeriveStatic: the refusal reasons of several certificates are a set, not one joined string.
- ComputeDiff: removed relations are keys, mapping changes and moves name the component only, and notes, labels and sort order are not compared, as in the source.
- ForkModel: the layout copied for the user interface and the sort order of rows are not modelled.
- EditKeeps: updating and deleting a relation and deleting a mapping, one statement each, are functions on the tables; foreign keys are the validity of the tables, and refusals carry no code.
- Strongly connected components, `detect_cycles`, `dependency_cone` and topological sorting of the graph kernel: calls into rustworkx.
- `fix_numeric_spacing`, `fix_hollerith` and `collapse_blank_runs`: regular-expression and text rewrites; their results enter the position maps as arbitrary text.
- Resolution of call sites, references and imports in the indexer, projections and evidence regeneration: arbitrary staging work in the store model.
- Design-rule findings other than the cycle, `derive_design`, `derive_alignment` and the reason strings of projections: one check per finding, no interaction.
- Legacy node aliases: nodes are looked up by exact id.
- Malformed JSON values: a value of the wrong type is represented only where the source checks for it.
- Agent scopes, one worktree for each task, session tokens, execution receipts, merge bases and the status text of a workspace: what the commands need of them is given with the command.
- Locks, file publication, tool versions and execution in a Git worktree of the execution authority.
- Receipt ids and envelopes: a receipt is what it is bound to, its lane, build and analysis.
- PostgreSQL, full-text search, HTTP and the web interface, Joern, LFortran and tree-sitter adapters.
- Python's recursion limit: `visit` and `_walk` terminate here at any depth.
