# TurboVault in Dafny

TurboVault keeps a vault of Markdown notes in a git repository and lets many writers change it at
once. This project models three parts of it and proves what they promise.

**The git write protocol.** A writer takes the worktree's commit lock and reads the branch tip. It
refuses if anything is staged or a touched file was edited, checks its preconditions against the
tip's tree, folds renames, builds a tree, and advances the branch by compare-and-swap, starting over
if it lost a race. Then it writes the touched paths into the working tree and rewrites the index.
Fan-outs fork a scratch branch and merge it back. `WriteProtocol` is this as a step machine: any
number of writers with program counters, outside processes that may add commits, move the branch,
rewrite the index or edit files at any moment, I/O failures, crashes and resyncs. `WriteInvariants`
and `WriteSteps` hold the invariant and its proof step by step; `AtomicWrites`, `NoLostUpdate`,
`Coherence`, `CrashRecovery`, `Leftovers` and `HookOrder` are the results over whole runs. `VaultRepos` is the
same code as methods of an object, loop by loop, proved against the functions of `VaultSpec`;
`VaultRuns` shows that what those functions say is what a run of the machine arrives at.
`TreeBuilding`, `Attempts`, `Materialization`, `Restore` and `FirstParents` are the pieces both rest
on, `CommitLocks` the registry behind the lock.

**The link graph.** `LinkGraphs` is the object: a directed graph in numbered slots, four hash indices
over the slots, and the links that do not resolve yet. Removing a node or an edge moves the last slot
into the freed one (`Digraphs`, `GraphRemoval`), so every index has to be renumbered (`SlotIndices`,
`LinkSteps`). `LinkViews` says what the graph means by path, slots aside; every method is proved
against it, and `LinkSpellings`, `LinkResolution`, `LinkAccounts`, `LinkRuns` and `Distances` prove what
follows.

**Parsing kernels.** Merged exclusion ranges with lookup by bisection (`ExcludedSpans`), the line
index against counting (`LineIndices`), the passes that walk lines with a running byte offset
(`BodyLines`, `LineParsers`), and the splitter of a task's trailing metadata (`TaskMetadata`,
`TaskSections`), with a writer of such metadata to prove that it reads back (`TaskWriting`).

Commit ids are positions in an append-only list of commits; a tree is a map from paths to contents,
so equal blob ids and equal contents are the same thing. A note path is the sequence of its
components. Texts are sequences of bytes where offsets matter and of characters elsewhere; lower
case, white space and letters come in as parameters.

Where code and comments disagree the model follows the code. A stale precondition ends a changeset
at once and is never retried; only a lost compare-and-swap is. "Nothing applied" holds of conflicts
and no-ops, not of every error: a failure while files are being written leaves the branch advanced.
A merge-back checks neither the index nor dirty files. `commit_fanout` is documented to leave its
artifacts behind on an error, but `merge_fanout_back`, which it calls, always cleans up. `update_links`
says it removes a note's old edges, but slot numbers collected beforehand can go stale while it does:
`GraphRemoval.RemovingOutgoingEdges` gives the exact condition and `GraphRemoval.AnOldEdgeCanSurvive`
a run that fails it. `update_links` also creates a note it does not know without reconciling:
`LinkRuns.UpdateOfUnknownSettles` says when stored links stay settled and
`LinkRuns.UpdateOfUnknownCanUnsettle` when they do not. A changeset that dies while revealing leaves an index that stops later
changesets, except after an empty first commit, where there is nothing to tell the index apart by.

## Model

| member | source | states |
|---|---|---|
| AtomicWrites.TakesEffectAtOnePoint | crates/turbovault-git/src/changeset.rs:110-198 | every changeset that ends in a commit, a no-op or a conflict is explained by the atomic specification at one position of the branch history, no earlier than its entry: a tree meeting all preconditions replaced by that tree with the plan in force, a tree in which it is in force already, or a tree that fails a precondition |
| AtomicWrites.HistoryIsAtomic | crates/turbovault-git/src/cas.rs:92-127 | every branch value a changeset wrote, even one that failed or crashed afterwards, is that plan's atomic commit on the value just before it; no writer writes twice; a merge-back's value descends from the one it replaced |
| AtomicWrites.NothingApplied | crates/turbovault-git/src/cas.rs:35-64 | in every run, no step of a call that ends in a conflict, a no-op, or any refusal but an I/O failure changed branch, index or working tree; merge-backs included |
| AtomicWrites.TouchesOnlyOnceLanded | crates/turbovault-git/src/changeset.rs:129-197 | a writer's step changes branch, index or working tree only if its own compare-and-swap has succeeded |
| AtomicWrites.ExhaustionNeedsInterference | crates/turbovault-git/src/cas.rs:92-127 | for every retry budget: a changeset reads the tip at most max_retries + 1 times; it reports exhaustion only if each of those rounds lost to an outside write between its tip read and its compare-and-swap, so at least that many such writes fell within the call |
| AtomicWrites.EffectsInRealTimeOrder | crates/turbovault-git/src/changeset.rs:110-198 | a changeset that was over before another began took effect no later than it, strictly earlier if it wrote the branch |
| WriteSteps.InvStep | crates/turbovault-git/src/changeset.rs:110-198 | every step of every writer, of fan-outs and of outside processes keeps the protocol invariant: lock ownership, what each program point may assume of the branch history, who wrote which history entry |
| WriteSteps.RunInv | crates/turbovault-git/src/changeset.rs:110-198 | the protocol invariant holds in every state of every run |
| WriteSteps.HistoryGrowth | crates/turbovault-git/src/cas.rs:35-64 | commits and branch history only ever grow, by at most one entry a step, written by a writer's own compare-and-swap or by an outside process |
| NoLostUpdate.EveryTipSurvives | crates/turbovault-git/src/fanout.rs:340-418 | in every run whose outside moves go forward, each commit the branch ever pointed to is an ancestor of every later tip, under changesets, fast-forward and two-parent merge-backs |
| NoLostUpdate.WritersGoForward | crates/turbovault-git/src/cas.rs:35-64 | whatever a writer puts on the branch descends from what it replaces; for a fast-forward this rests on the scratch branch descending from its fork point |
| Coherence.CoherentWhenLockIsFree | crates/turbovault-git/src/materialize.rs:93-136 | from a coherent start, with no I/O failure or outside edit, whenever the commit lock is free the index is HEAD's tree and every file of HEAD is on disk with HEAD's bytes |
| CrashRecovery.BehindIndexStopsChangesets | crates/turbovault-git/src/materialize.rs:27-82 | along any stretch of steps, outside moves, resyncs and merge-backs included, in which the index differs from HEAD throughout: no changeset that had not passed the status check changes branch, index or working tree, and one that begins meanwhile ends refused for staged changes, refused up front for its plan, failed on I/O, or crashed |
| CrashRecovery.CrashLeavesIndexBehind | crates/turbovault-git/src/materialize.rs:93-136 | a changeset that dies after its compare-and-swap and before the index is rewritten leaves the index behind HEAD, exactly unless it made an empty first commit |
| CrashRecovery.ResyncFinishesTheCrash | crates/turbovault-git/src/materialize.rs:141-146 | kill a writer after any number of its reveal steps, let any number of changesets come and be turned away, then resync its paths: working tree and index are those of the run that was not interrupted, temporary files aside, whatever the disk showed when it began; if it showed the old tip, it now shows HEAD |
| CrashRecovery.RevealedAlong | crates/turbovault-git/src/materialize.rs:93-136 | in every run in which only writers touch the disk, outside branch moves allowed, the disk of a reveal under way is what its steps so far made of some disk, which is what the recovery above starts from |
| Leftovers.OnlyCrashesLeaveFiles | crates/turbovault-git/src/materialize.rs:107-118 | in every run in which nobody dies while revealing, through I/O failures, lost races and resyncs alike, at most the one temporary file about to be renamed exists, and none whenever the lock is free |
| HookOrder.HookSeesCommitOrder | crates/turbovault-git/src/changeset.rs:169-174 | in every run the hook's calls match strictly increasing positions of the branch history, and the parent reported is the one parent the commit has, whatever retries it went through |
| Materialization.ResyncRecovers | crates/turbovault-git/src/materialize.rs:93-146 | interrupt materialization any number of times, each after any number of steps; one full pass over the same paths then gives the files and index of an uninterrupted one |
| Materialization.MaterializeShows | crates/turbovault-git/src/materialize.rs:93-136 | afterwards each listed path has exactly the commit's bytes or is absent, every other file is as before, the index is the commit's tree and no temporary file is left over |
| Materialization.MaterializeIdempotent | crates/turbovault-git/src/materialize.rs:93-136 | doing it twice is doing it once |
| Materialization.MaterializeKeepsCoherence | crates/turbovault-git/src/materialize.rs:93-136 | from a working tree that shows one tree, revealing the paths in which another tree differs makes it show that other tree |
| Materialization.ShowsUnique | crates/turbovault-git/src/materialize.rs:93-136 | what materialization must leave on disk is determined |
| TreeBuilding.OrderIndependent | crates/turbovault-git/src/changeset.rs:63-124 | for a plan that passes the duplicate-path check, every permutation passes it too and folds and builds to the same tree or the same refusal |
| TreeBuilding.FoldingEqualsInTurn | crates/turbovault-git/src/changeset.rs:63-94 | folding renames off the base tree and building equals applying the changes one after another |
| TreeBuilding.PlannedMeetsEffect | crates/turbovault-git/src/plumbing.rs:45-77 | the built tree has every change in force, a rename's target with its source's blob from the base, and every untouched path with its old blob; building refuses exactly when a rename has no source |
| TreeBuilding.PlanEffectUnique | crates/turbovault-git/src/changeset.rs:63-124 | a plan has at most one effect on a base tree |
| Attempts.AttemptMeaning | crates/turbovault-git/src/changeset.rs:136-160 | an attempt reports a conflict exactly when some precondition fails, even where the tree would come out unchanged; a built tree is the plan in force on a base that meets all preconditions and differs from it; a no-op means the plan is in force already |
| Attempts.FirstStale | crates/turbovault-git/src/occ.rs:50-91 | none exactly when all preconditions hold; otherwise the path of the first one that does not; what holding means is the next row's |
| Attempts.ConflictMeaning | crates/turbovault-git/src/occ.rs:50-91 | an attempt is a conflict exactly if the base violates a listed precondition: an expected blob that is not there or named by no proper token, a file where none may be, none where one must be; a blind one never; the first violated path is reported |
| Attempts.FirstRepeat | crates/turbovault-git/src/changeset.rs:117-123 | none exactly when no path, rename ends included, is mutated twice; otherwise the first path that occurs before itself |
| Attempts.MissingSource | crates/turbovault-git/src/changeset.rs:78-86 | none exactly when every rename has its source in the base; otherwise the source of the first rename that lacks it |
| VaultRepos.VaultRepo.CommitChangeset | crates/turbovault-git/src/changeset.rs:110-198 | the call computes the specified result on the vault and the outside moves it meets; a commit is atomic on the parent the hook is told and a no-op is justified; met by no outside move it comes to exactly what plan, worktree and HEAD say, first cause first |
| VaultRepos.VaultRepo.CommitWithRetry | crates/turbovault-git/src/cas.rs:68-73 | the same loop with the default budget of 8 retries |
| VaultRepos.VaultRepo.CommitWithRetryN | crates/turbovault-git/src/cas.rs:92-127 | for every max_retries the optimistic loop equals the recursive rounds: re-read, rebuild, at most max_retries + 1 builds, a builder's error returned at once |
| VaultRepos.VaultRepo.CasRef | crates/turbovault-git/src/cas.rs:35-64 | the branch moves exactly if it holds the expected value, absence included; otherwise a conflict and nothing moved |
| VaultRepos.VaultRepo.BuildOn | crates/turbovault-git/src/changeset.rs:135-162 | one builder call: worktree check, then preconditions, then tree; a new commit object only if the tree differs from the base |
| VaultRepos.VaultRepo.ResolveTreeChanges | crates/turbovault-git/src/changeset.rs:63-94 | the loop computes the fold of renames, or names the first rename without a source |
| VaultRepos.VaultRepo.BuildTree | crates/turbovault-git/src/plumbing.rs:45-77 | the loop over an isolated index computes the tree changes applied in turn |
| VaultRepos.VaultRepo.CommitTree | crates/turbovault-git/src/plumbing.rs:87-97 | a commit object with exactly these parents is appended; nothing else moves |
| VaultRepos.VaultRepo.FindDuplicate | crates/turbovault-git/src/changeset.rs:117-123 | the loop with its seen set finds the first path named a second time |
| VaultRepos.VaultRepo.EnsureWorktreeMatchesCommit | crates/turbovault-git/src/materialize.rs:27-82 | refuses first for staged changes, then for the first touched path that differs from the base commit |
| VaultRepos.VaultRepo.Materialize | crates/turbovault-git/src/materialize.rs:93-136 | the loops perform the script path by path, temporary file first and index last; the listed paths then show the commit and no others changed |
| VaultRepos.VaultRepo.ResyncToHead | crates/turbovault-git/src/materialize.rs:141-146 | materializes HEAD's commit again; nothing on an unborn branch |
| VaultRepos.VaultRepo.OpenFanout | crates/turbovault-git/src/fanout.rs:220-247 | a scratch branch at HEAD's commit, which is also the recorded fork point; refused on an unborn branch and for a branch name already taken, and then nothing is created |
| VaultRepos.VaultRepo.CommitOnFanout | crates/turbovault-git/src/fanout.rs:196-204 | a changeset in the fan-out's worktree goes through the same pipeline on the scratch branch, which moves forward only; the branch HEAD names and the other scratch branches stay |
| VaultRepos.VaultRepo.MergeInner | crates/turbovault-git/src/fanout.rs:340-418 | a refused merge-back changes nothing; nothing to merge changes nothing; otherwise the proposed advance lands exactly if the branch did not move before the swap, the index is then its tree, exactly the paths it changed are shown, and a coherent working tree stays coherent; a lost swap is a conflict that reveals nothing |
| VaultRepos.VaultRepo.MergeFanoutBack | crates/turbovault-git/src/fanout.rs:262-276 | the scratch branch is gone afterwards whether or not the merge went through; a failure without outside moves changes nothing; the new tip descends from both branches, for a fast-forward if the handle is the one the fan-out was opened with; HEAD's files are then the merge's, and the scratch branch's where the branch is still at the fork |
| VaultSpec.MergeMeaning | crates/turbovault-git/src/fanout.rs:340-418 | which of the refusals a merge-back meets, and that nothing is proposed exactly if the scratch branch is where it was forked; a merge commit descends from both branches, a fast-forward from the branch exactly if the scratch branch descends from its fork |
| VaultSpec.MergeFiles | crates/turbovault-git/src/fanout.rs:383-402 | the merge commit's tree is that of merging fork, branch and scratch branch in these roles: for any three-way merge that takes over what one side alone changed, the scratch branch's files if the branch is unchanged since the fork, the branch's if the scratch branch is; a fast-forward shows the scratch branch's |
| VaultRepos.VaultRepo.FirstParentRange | crates/turbovault-git/src/repo.rs:193-222 | none exactly when stop is not on the first-parent chain; otherwise the contiguous range above stop, oldest first |
| VaultRepos.VaultRepo.PathsChangedBetween | crates/turbovault-git/src/restore.rs:57-75 | exactly the paths in which the two commits differ, once each |
| VaultRepos.VaultRepo.DiffPathChanges | crates/turbovault-git/src/restore.rs:87-122 | each differing path once: added if only the second tree has it, deleted if only the first, modified if both; from the empty tree if there is no first commit |
| VaultRepos.VaultRepo.BuildRestoreChangeset | crates/turbovault-git/src/restore.rs:155-192 | the loop builds the specified plan, none if it is empty; refused on an unborn branch |
| VaultRuns.CallIsARun | crates/turbovault-git/src/changeset.rs:110-198 | for every retry budget: what the call is specified to compute is what a complete run of the step machine, with the same outside moves, arrives at |
| VaultSpec.RoundsMeaning | crates/turbovault-git/src/cas.rs:92-127 | the rounds end in an atomic commit on the tip they report, in a justified no-op, or in an error; a conflict only if a precondition fails on the tip then current |
| VaultSpec.AloneFailureChangesNothing | crates/turbovault-git/src/changeset.rs:110-198 | a call that meets no outside move and fails has changed neither branch nor index nor working tree, and never reports exhaustion |
| VaultSpec.AloneComesTo | crates/turbovault-git/src/changeset.rs:110-198 | a call left alone: no changes, a path mutated twice, staged changes, the first edited file, the first violated precondition, the first rename without source, each refused with nothing changed; otherwise the unchanged head if the plan is in force, else one commit on HEAD with the plan in force |
| VaultSpec.WhenCallsConflict | crates/turbovault-git/src/occ.rs:50-91 | on a clean worktree a precondition that HEAD violates ends the call in a conflict whatever others do; left alone it ends in one only then |
| VaultSpec.CommitOverwritesNoEdit | crates/turbovault-git/src/materialize.rs:27-82 | when a call left alone commits, every file it changed on disk was one it touches and still was the old tip's, so no edit is overwritten |
| VaultSpec.CommittedIsShown | crates/turbovault-git/src/changeset.rs:164-180 | after a commit the touched paths on disk and the index are the commit's |
| CommitLocks.CommitLocks.MutexFor | crates/turbovault-git/src/locks.rs:37-48 | the same worktree gets the same mutex in whatever spelling and whenever asked, different worktrees different ones |
| Restore.RestoreRoundTrip | crates/turbovault-git/src/restore.rs:155-192 | for distinct paths the plan is empty exactly if every path is at its target; otherwise building it on the HEAD it was made from sets exactly those paths to their target and no others |
| Restore.RestoringTheDiffUndoes | crates/turbovault-git/src/restore.rs:57-75 | restoring the paths in which HEAD differs from its parent gives the parent's whole tree back |
| Restore.RestoreAbortsOnLaterChange | crates/turbovault-git/src/restore.rs:155-192 | through the whole pipeline, on a worktree that passes the checks: if a path the plan changes has changed since, committing the plan ends in a conflict with branch, index and files as they were, whatever others do meanwhile; left alone it ends in a conflict only then |
| Restore.AttemptAbortsOnLaterChange | crates/turbovault-git/src/restore.rs:155-192 | building the plan on a later base is a conflict exactly if some path the plan changes has changed since |
| Restore.RestoreCommits | crates/turbovault-git/src/restore.rs:155-192 | through the whole pipeline on a clean worktree: the restore commits, and HEAD then has exactly the listed paths at their target |
| FirstParents.RangeUnique | crates/turbovault-git/src/repo.rs:193-222 | there is at most one contiguous first-parent range |
| FirstParents.ReplayReachesTip | crates/turbovault-git/src/restore.rs:87-122 | replaying each commit's diff against its first parent along the range turns stop's files into the tip's |
| FirstParents.NoDifferenceSkipped | crates/turbovault-git/src/repo.rs:193-222 | a path that differs between the ends appears in some commit's diff |
| LinkGraphs.LinkGraph.AddFile | crates/turbovault-graph/src/graph.rs:60-114 | by path: the note indexed, its aliases entered, the stored links reconciled; all indices stay exact and afterwards no stored link resolves |
| LinkGraphs.LinkGraph.EnterNode | crates/turbovault-graph/src/graph.rs:66-93 | a new node enters the path, stem and suffix indices and changes no other entry |
| LinkGraphs.LinkGraph.ReconcileUnresolvedLinks | crates/turbovault-graph/src/graph.rs:116-143 | in whatever order sources come: each stored link that resolves to another note becomes an edge, the others that do not resolve stay |
| LinkGraphs.LinkGraph.RemoveFile | crates/turbovault-graph/src/graph.rs:151-233 | by path exactly the graph with the note filtered out of every index list and every edge, in order, whichever slot the last node moves to; settled stays settled |
| LinkGraphs.LinkGraph.UpdateLinks | crates/turbovault-graph/src/graph.rs:236-322 | only the note's own edges are removed; all of its old ones go exactly if no collected slot number comes too late; then one edge for each wanted link that resolves to another note, the rest stored as broken |
| LinkGraphs.LinkGraph.ResolveLink | crates/turbovault-graph/src/graph.rs:331-369 | the slot found is the slot of the note the target resolves to by path |
| LinkGraphs.LinkGraph.RelatedNotes | crates/turbovault-graph/src/graph.rs:433-469 | exactly the notes at undirected distance 1 to max_hops, each once, with non-decreasing exact distances; terminates |
| LinkGraphs.LinkGraph.DropFromLists | crates/turbovault-graph/src/graph.rs:167-178 | retaining over every list and then over the index is dropping the slot everywhere |
| LinkGraphs.LinkGraph.RenameInLists | crates/turbovault-graph/src/graph.rs:209-225 | replaces one slot by another in every list |
| SlotIndices.VacatedIsForgotten | crates/turbovault-graph/src/graph.rs:151-233 | removing a node, renaming the moved last slot in three indices and moving its path entry is, by path, forgetting the note |
| LinkSteps.FileIndexFollows | crates/turbovault-graph/src/graph.rs:157-207 | touching the file index only at the two stems' keys does what touching every list would do |
| SlotIndices.EnteredIsAdmitted | crates/turbovault-graph/src/graph.rs:66-93 | entering a slot under stem, suffixes and path is, by path, admitting the note |
| SlotIndices.SlotForNamed | crates/turbovault-graph/src/graph.rs:331-369 | looking up slots and taking the first with fewest components agrees with resolving by path |
| GraphRemoval.RemovingOutgoingEdges | crates/turbovault-graph/src/graph.rs:267-271 | removing a note's collected edge slots in turn, under swap-remove renumbering, keeps every other note's edges in order and deletes all of its own exactly if each slot number plus its place in the list is below the edge count |
| GraphRemoval.DescendingIsInTime | crates/turbovault-graph/src/graph.rs:267-271 | descending slot numbers, as they are while no removal has moved an edge, always meet that condition |
| GraphRemoval.AnOldEdgeCanSurvive | crates/turbovault-graph/src/graph.rs:267-271 | a run of four updates over three notes at whose end a note updated to no links still has one of its old edges |
| GraphRemoval.RemoveNodeNamed | crates/turbovault-graph/src/graph.rs:189-190 | removing a node takes out exactly the edges at it, and keeps the rest in order |
| Digraphs.RemoveEdgeNamed | crates/turbovault-graph/src/graph.rs:269-271 | removing one edge takes exactly that edge out of the list by name, wherever the last slot moves |
| LinkResolution.ResolveMeaning | crates/turbovault-graph/src/graph.rs:331-369 | a target resolves exactly if some note carries it as stem, alias or path suffix; a stem beats an alias, an alias beats a suffix, and no suffix match is shorter than the one chosen |
| LinkResolution.ShortestIsFirst | crates/turbovault-graph/src/graph.rs:358-366 | the chosen path has the fewest components and is the first such |
| LinkResolution.ResolutionSurvivesRemoval | crates/turbovault-graph/src/graph.rs:331-369 | removing a note changes the resolution of no target that did not resolve to it; unresolvable stays unresolvable |
| LinkResolution.RemovedNoteUnreachable | crates/turbovault-graph/src/graph.rs:151-233 | after a removal nothing resolves to the removed note |
| LinkResolution.OwnPathResolves | crates/turbovault-graph/src/graph.rs:331-369 | a link that spells out a note's whole path always resolves |
| LinkTargets.OwnPathNormalizes | crates/turbovault-core/src/okf.rs:155-181 | writing a plain path out as a target and normalizing it gives back its own components as the suffix index spells them |
| LinkTargets.SegmentsOfJoin | crates/turbovault-core/src/okf.rs:171-178 | splitting a joined path gives back its components |
| LinkSpellings.SpellingNormalizes | crates/turbovault-core/src/okf.rs:155-181 | whatever separators, empty or dot segments, surrounding white space and fragment a target is written with, it names exactly the components it spells, and nothing if it spells none |
| LinkSpellings.PlainSpellings | crates/turbovault-core/src/okf.rs:144-181 | a plain path with a fragment or without, on its own, from the root, or from "." or "..", is that path |
| LinkSpellings.SpellingResolves | crates/turbovault-graph/src/graph.rs:331-369 | a link that spells the last components of a live note's path resolves, in any case, with or without ".md", and in any of these spellings alike; to that note if no other is found under them |
| LinkSpellings.StemComesFirst | crates/turbovault-graph/src/graph.rs:331-342 | a single name resolves, in whatever case, to a note with that stem if there is one, and to none that has the name only as alias or component |
| LinkSpellings.ExternalNamesNothing | crates/turbovault-core/src/okf.rs:155-163 | a web address, a mail address or a bare fragment names no note |
| LinkSpellings.WhichLinksTakePart | crates/turbovault-graph/src/graph.rs:624-664 | a link of any of the five internal kinds takes part in the graph unless its last segment has an attachment extension behind a name; anchors and external links never do |
| LinkSpellings.NotesAreNoAttachments | crates/turbovault-graph/src/graph.rs:637-664 | md, markdown and txt, in any case, are no attachment extensions |
| LinkSpellings.FragmentTakesNoPart | crates/turbovault-graph/src/graph.rs:624-635 | a fragment alone takes no part and names no note |
| LinkSpellings.StemOfFileName | crates/turbovault-graph/src/graph.rs:66-93 | a note is found under its file name up to the last dot |
| LinkAccounts.EveryLinkAccounted | crates/turbovault-graph/src/graph.rs:297-317 | each link becomes one edge, stays unresolved, or points at its own note; none is lost or doubled |
| LinkAccounts.AddAccountsForStoredLinks | crates/turbovault-graph/src/graph.rs:116-143 | adding a file moves each stored link that newly resolves to exactly one edge of its source; only self-links are dropped |
| LinkAccounts.ReconcileOrderIrrelevant | crates/turbovault-graph/src/graph.rs:119-142 | the order in which sources are visited shows neither in what stays unresolved nor in any note's own edges |
| LinkAccounts.UpdateIsExact | crates/turbovault-graph/src/graph.rs:267-319 | other notes keep their edges in order; the note's edges are its resolved wanted links ahead of whatever old ones survived; its wanted links are all accounted for |
| LinkRuns.RunKeeps | crates/turbovault-graph/src/graph.rs:60-322 | in every run from the empty graph all indices stay exact and free of duplicates, edges have live ends and no loops, and every stored link is marked broken; if updates come only for known notes, no stored unresolved link resolves and every key is a live note |
| LinkRuns.StepKeeps | crates/turbovault-graph/src/graph.rs:60-322 | each add, removal and update keeps the same |
| LinkRuns.AddedEdgesAreValid | crates/turbovault-graph/src/graph.rs:116-143 | the edges that adding a note brings stand for links marked valid, and no edge there is lost |
| LinkRuns.UpdateOfUnknownSettles | crates/turbovault-graph/src/graph.rs:242-265 | updating a note the graph does not know leaves everything settled exactly if no stored link names its path |
| LinkRuns.UpdateOfUnknownCanUnsettle | crates/turbovault-graph/src/graph.rs:242-265 | a run of an add and two updates, the second for an unknown note, at whose end a stored link resolves |
| LinkRuns.SuchAnUpdate | crates/turbovault-graph/src/graph.rs:242-265 | such a run with concrete paths: a.md links to b before there is a b.md |
| LinkRuns.AddingBackRestoresNoLink | crates/turbovault-graph/src/graph.rs:151-233 | deleting a note and adding it back brings none of the links into it back and leaves every other stored link stored, the latter exactly if no stored link of another note spells an alias the note comes back with |
| Distances.WithinIsWalk | crates/turbovault-graph/src/graph.rs:433-469 | within a distance means that some walk over links taken either way is that short |
| Distances.SearchStep | crates/turbovault-graph/src/graph.rs:442-463 | one stop worked off: every queued stop still stands at its exact distance, each slot once, nearest first |
| Distances.SearchEnds | crates/turbovault-graph/src/graph.rs:433-469 | when the queue is empty the stops are the whole neighbourhood |
| ExcludedSpans.ExcludedRanges.Add | crates/turbovault-parser/src/engine.rs:119-121 | the range is appended and joins what is covered |
| ExcludedSpans.ExcludedRanges.Optimize | crates/turbovault-parser/src/engine.rs:124-144 | the loop computes the merged list: sorted, with gaps, covering the same offsets; a list that already has gaps is left as it is |
| ExcludedSpans.ExcludedRanges.Contains | crates/turbovault-parser/src/engine.rs:94-116 | true exactly if some range ever added holds the offset, though only one stored range is looked at |
| ExcludedSpans.OptimizedCovers | crates/turbovault-parser/src/engine.rs:124-144 | merging changes nothing about which offsets are excluded, malformed ranges included |
| ExcludedSpans.OptimizedIsGapped | crates/turbovault-parser/src/engine.rs:124-144 | the merged list is sorted and each range starts beyond the end of the one before |
| ExcludedSpans.OptimizedIsIdempotent | crates/turbovault-parser/src/engine.rs:124-144 | optimizing twice is optimizing once |
| LineIndices.LookupAgrees | crates/turbovault-core/src/models.rs:55-69 | the indexed lookup gives the line and column that counting from the start gives, at every offset and beyond the end |
| LineIndices.LookupInverts | crates/turbovault-core/src/models.rs:123-142 | line and column lead back to the offset through the start of the line |
| LineIndices.LineStartInverts | crates/turbovault-core/src/models.rs:137-142 | each line's start is at column 1 of that line; there are as many lines as newlines plus one |
| LineIndices.StartsAre | crates/turbovault-core/src/models.rs:110-118 | a position is in the index exactly if it is 0 or follows a newline |
| LineIndices.NewLineIndex | crates/turbovault-core/src/models.rs:110-118 | one pass over the text computes the line starts |
| LineIndices.PartitionPoint | crates/turbovault-core/src/models.rs:123-134 | bisection finds the boundary between the entries up to a value and those beyond it |
| BodyLines.RunningOffset | crates/turbovault-parser/src/engine.rs:700-706 | adding a line's length and the size of its ending leads from its true start to the next line's, under any mix of line endings |
| BodyLines.PlacedIsThere | crates/turbovault-parser/src/engine.rs:700-706 | a line stands where its start says: after a newline or at the beginning, free of newlines, up to a line ending or the end, and takes no part of its ending |
| BodyLines.PiecesAt | crates/turbovault-parser/src/engine.rs:700-706 | the pieces between newlines are the stretches between consecutive line starts |
| LineParsers.ParseExtendedTasks | crates/turbovault-parser/src/engine.rs:689-739 | the loop with its running offset reports the tasks that the lines at their true starts give; with patterns that need the literals of the pre-filter these are, in order, one for each line that is a task, none missed or made up; each line is a whole line of the document without any of its ending, and each span reads it from the marker on at the right line and column |
| LineParsers.ParseCallouts | crates/turbovault-parser/src/engine.rs:742-792 | the two loops sharing one offset report the callouts that the lines at their true starts give: in order, one for each header line, with the title it has; the content is that of its continuation lines, joined by line feeds from the first that is not empty; each span reads its whole header line at the right line and column |
| LineParsers.ParseContinuation | crates/turbovault-parser/src/engine.rs:820-886 | collects continuation lines up to the next header or other line, skips excluded ones, and hands the offset back at a true line start |
| LineParsers.TaskSpansRead | crates/turbovault-parser/src/engine.rs:689-739 | of lines that are there, exactly those that are tasks are reported, in order, and each task's span reads, in the whole document, its line from the marker on |
| LineParsers.CalloutSpansRead | crates/turbovault-parser/src/engine.rs:742-792 | of lines that are there, exactly the header lines are reported, in order, each with its continuation's content, and each callout's span reads its header line |
| LineParsers.EveryTaskReported | crates/turbovault-parser/src/engine.rs:689-739 | over a whole body all of that holds of the tasks its lines give, and the pre-filter drops none: where it stops the pass there is no task |
| LineParsers.EveryCalloutReported | crates/turbovault-parser/src/engine.rs:742-792 | the same of callouts and their pre-filter |
| LineParsers.PartIsThere | crates/turbovault-parser/src/engine.rs:69-77 | the pre-filters' search finds its literal exactly if it stands somewhere in the body |
| LineParsers.ContentTakenUp | crates/turbovault-parser/src/engine.rs:820-886 | a callout's content is the captured parts of exactly the lines up to the next header or other line, excluded ones left out, joined by line feeds, leading empty parts dropped |
| TaskSections.FindMetadataStart | crates/turbovault-core/src/task_parser.rs:148-165 | the first word start that begins a token, does not follow a bare priority marker, and starts pure metadata; the end if there is none |
| TaskSections.IsPureMetadata | crates/turbovault-core/src/task_parser.rs:174-200 | true exactly if items take the text to its last character, there is at least one, and at most one has a priority |
| TaskSections.ParseMetadataSection | crates/turbovault-core/src/task_parser.rs:202-222 | the loop merges the items of the text in order; it ends because every item takes something |
| TaskSections.ParseTaskContent | crates/turbovault-core/src/task_parser.rs:130-135 | description before the chosen start, metadata from it; a description, none of whose words begins like an item, followed by any items written out, gives back that description and what those items say |
| TaskSections.OneItemMeans | crates/turbovault-core/src/task_parser.rs:202-222 | with a single item the metadata is just what that item says |
| TaskWriting.WrittenItemsParse | crates/turbovault-core/src/task_parser.rs:202-248 | any row of written items, dates, recurrence rules, on-completion actions, ids, dependencies, priorities, tags, block references and inline fields, is read back as exactly those items to the last character |
| TaskWriting.ItemRead | crates/turbovault-core/src/task_parser.rs:235-448 | each kind of item, spaces and tabs behind its marker or not, is read back as what it says and takes no more of the text |
| TaskWriting.ItemOfKey | crates/turbovault-core/src/task_parser.rs:484-499 | an inline field of each standard key says what that key stands for, and every field is kept under its key |
| TaskWriting.RuleRead | crates/turbovault-core/src/task_parser.rs:268-291 | a recurrence rule of words with single spaces is read back as that rule, up to the end or the next item |
| TaskWriting.IdsRead | crates/turbovault-core/src/task_parser.rs:501-508 | ids between commas are read back in order, white space around them and pieces without an id dropped |
| TaskWriting.TagRead | crates/turbovault-core/src/task_parser.rs:421-435 | a tag goes as far as its characters do, and one without a letter is no item |
| TaskWriting.GapsSeparate | crates/turbovault-core/src/task_parser.rs:224-233 | before items spaces and tabs and among them one comma are passed over |
| TaskWriting.LowersLetters | crates/turbovault-core/src/task_parser.rs:293-302 | lowering a value lowers its capital letters and leaves all other characters |
| TaskSections.TwoRanksAreNone | crates/turbovault-core/src/task_parser.rs:148-200 | two priorities in a row are no metadata: the whole text is the description |
| TaskMetadata.DepthIsSurplus | crates/turbovault-core/src/task_parser.rs:359-403 | the running depths are the largest surplus of opening over closing brackets in any end part of the value |
| TaskSections.SuffixIsConsumed | crates/turbovault-core/src/task_parser.rs:130-222 | the chosen suffix is used up to its last character, with at most one priority; there are no items exactly if nothing was chosen |
| TaskSections.MetadataStartUnique | crates/turbovault-core/src/task_parser.rs:148-165 | the split is determined |
| TaskSections.LastItemWins | crates/turbovault-core/src/task_parser.rs:522-561 | in each of the eleven single-valued fields the last item that sets it wins; with none it stays empty |
| TaskSections.TagsKeepOrder | crates/turbovault-core/src/task_parser.rs:522-561 | tags keep the order of their items |
| TaskSections.LastDependenciesWin | crates/turbovault-core/src/task_parser.rs:522-561 | the dependencies are those of the last item that has any |
| TaskSections.LastFieldWins | crates/turbovault-core/src/task_parser.rs:522-561 | a named field has the value of the last item with its key, and no key is made up |
| TaskSections.ScanBalanced | crates/turbovault-core/src/task_parser.rs:359-403 | the scan with running depths finds the first closing bracket that closes nothing opened since the start, or none if there is none |
| TaskSections.CollectWords | crates/turbovault-core/src/task_parser.rs:268-291 | the loop collects the words up to the next token or the end, or fails with the specified outcome |
| TaskSections.WrittenTagsParse | crates/turbovault-core/src/task_parser.rs:421-435 | tags written one after another are read back as exactly those tags, and nothing else |
| TaskMetadata.ParseItem | crates/turbovault-core/src/task_parser.rs:235-248 | whatever alternative takes an item, what is left is a proper end of the input |
| TaskMetadata.BalancedEnd | crates/turbovault-core/src/task_parser.rs:359-403 | the position found is the first that closes at depth zero; none only if no position does |

## Left out

- libgit2 itself: object encoding, hashing (ids are injective), file modes, author signatures, the reflog, and paths that are directory prefixes of other paths.
- Content-level merging: `merge_trees` is an arbitrary function from base, ours and theirs to a tree or a conflict; only ancestry, the guards and what is revealed are proved.
- Detached HEAD, bare repositories, corrupt references, and touched paths that are directories or links rather than files.
- Creating, pruning and listing scratch worktrees on disk; an error from that cleanup is dropped by the code as well. Commits on a scratch branch are single steps of the machine, and fan-out ids are not reused.
- VaultRepos.VaultRepo.CommitChangeset: meets outside moves only between a tip read and the compare-and-swap, and has no I/O errors among its results; both are in the step machine, where outside moves fall anywhere and `Fail` and `Crash` are steps.
- VaultRepos.VaultRepo.CommitWithRetryN: runs the changeset's own builder and not any closure, because `commit_changeset` is the one place in the repository that calls it.
- VaultRepos.VaultRepo.CommitWithRetry: the same.
- VaultRepos.VaultRepo.MergeInner: meets outside moves only between the tip reads and the compare-and-swap.
- VaultRepos.VaultRepo.CommitOnFanout: meets no outside moves, as it works on a scratch branch of its own.
- Lock poisoning, failures of the advisory lock file, and the registry's own mutex; the machine has one lock for the worktree, held from entry to release and freed by a crash.
- The post-commit hook is a log of its calls; commit messages, metadata and tracing are not modelled.
- `for_replace` and `for_in_place` of the preconditions, and read-only queries of repository and link graph (backlinks, orphans, statistics, components, cycles): one branch or one expression each, or petgraph's algorithms.
- Hash map iteration order: loops over maps take their keys in an arbitrary order, and a ghost result says which.
- Paths that are not valid Unicode; Unicode case mapping, which is an arbitrary function here.
- In `reconcile_unresolved_links` the branch for a source that is no longer a note: the invariant shows that it cannot be taken.
- petgraph is not part of the repository: its adjacency order (newest first) and swap-remove renumbering are modelled as functions on a graph value, not as linked lists in place.
- The patterns for callouts and tasks are functions from a line to its captures; pulldown-cmark, YAML and the other passes of the engine are not modelled, nor are callout types and the task metadata of extended tasks.
- In the line index every byte offset is allowed, where the original would panic on one inside a character.
- Task metadata positions are counted in characters rather than bytes, which changes no split; the checkbox parser of `parse_task_line` is not modelled.
- Audit log, caches, configuration, profiles, metrics, export, plugin interface, server and command line.
