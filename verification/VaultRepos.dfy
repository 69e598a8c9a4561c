/** The repository handle: the operations of turbovault-git on one worktree, updating it in place. */
module VaultRepos {
  import opened Wrappers
  import opened Sequences
  import opened ChangePlans
  import opened ObjectStore
  import opened TreeBuilding
  import opened Attempts
  import opened Materialization
  import opened WriteProtocol
  import opened AtomicWrites
  import opened VaultSpec
  import opened Restore
  import opened FirstParents

  /** The handle a fan-out hands back to be merged or abandoned later. */
  datatype FanoutInfo = FanoutInfo(branch: string, fork: CommitId)

  datatype MergeBackResult = MergeBackResult(before: CommitId, after: CommitId, mergeCommit: Option<CommitId>)

  // ---------------------------------------------------------------------------------------------
  // Facts about the loops below
  // ---------------------------------------------------------------------------------------------

  lemma {:induction false} FirstMissing(base: Tree, changes: seq<Change>, i: nat)
    requires i < |changes| && Fold(base, changes[..i]).Some? && FoldChange(base, changes[i]).None?
    ensures Fold(base, changes).None? && MissingSource(base, changes) == Some(changes[i].from)
  {
    var init := changes[..|changes| - 1];
    if i < |init| {
      assert init[..i] == changes[..i];
      FirstMissing(base, init, i);
    }
  }

  lemma {:induction false} RepeatFound(paths: seq<Path>, i: nat)
    requires i < |paths| && FirstRepeat(paths[..i]).None? && paths[i] in paths[..i]
    ensures FirstRepeat(paths) == Some(paths[i])
  {
    var init := paths[..|paths| - 1];
    if i < |init| {
      assert init[..i] == paths[..i];
      RepeatFound(init, i);
    }
  }

  /** Writing one path through a temporary file, or deleting it if it is there. */
  lemma ShownPath(before: Disk, after: Disk, tree: Tree, p: Path)
    requires after.temps == before.temps && after.index == before.index
    requires p in tree ==> after.files == before.files[p := tree[p]]
    requires p !in tree ==> after.files == before.files - {p}
    ensures after == RunDisk(before, PathSteps(tree, p))
  {
    if p in tree {
      var steps := PathSteps(tree, p);
      assert steps[..1] == [WriteTemp(tree[p])];
      assert RunDisk(before, steps[..1]) == ApplyDiskStep(before, steps[0]);
    } else {
      assert RunDisk(before, [DeleteFile(p)]) == ApplyDiskStep(before, DeleteFile(p));
    }
  }

  lemma ScriptEnds(disk: Disk, tree: Tree, paths: seq<Path>)
    ensures RunDisk(disk, Script(tree, paths)) == RunDisk(disk, FileSteps(tree, paths)).(index := tree)
  {
    RunConcat(disk, FileSteps(tree, paths), [WriteIndex(tree)]);
    assert [WriteIndex(tree)][..0] == [];
  }

  /** Every open fan-out's branch descends from the commit it forked off. */
  ghost predicate Forked(store: Store, forks: map<string, CommitId>, branches: map<string, CommitId>)
    requires WellFormed(store)
  {
    && forks.Keys == branches.Keys
    && forall b :: b in branches ==> branches[b] < |store| && Ancestor(store, forks[b], branches[b])
  }

  lemma ForkedStays(store: Store, later: Store, forks: map<string, CommitId>, branches: map<string, CommitId>)
    requires WellFormed(store) && WellFormed(later) && Extends(store, later) && Forked(store, forks, branches)
    ensures Forked(later, forks, branches)
  {
    forall b | b in branches ensures Ancestor(later, forks[b], branches[b]) {
      AncestorStable(store, later, forks[b], branches[b]);
    }
  }

  lemma ForkedAdvances(store: Store, forks: map<string, CommitId>, branches: map<string, CommitId>, b: string, tip: CommitId)
    requires WellFormed(store) && Forked(store, forks, branches) && b in branches && tip < |store|
    requires Ancestor(store, branches[b], tip)
    ensures Forked(store, forks, branches[b := tip])
  {
    AncestorTransitive(store, forks[b], branches[b], tip);
  }

  /** Every path in which `before` and `after` differ has become what it is in `after`; other files stay. */
  ghost predicate RevealsDiff(files: Tree, before: Tree, after: Tree, shown: Tree) {
    forall p :: Lookup(shown, p) == if Lookup(before, p) != Lookup(after, p) then Lookup(after, p) else Lookup(files, p)
  }

  class VaultRepo {
    var store: Store
    var head: Tip
    var files: Tree
    var temps: seq<Content>
    var index: Tree
    /** The branches of open fan-outs. */
    var branches: map<string, CommitId>
    /** Where each of them was forked off. */
    ghost var forks: map<string, CommitId>
    /** What the post-commit hook has been told: parent and commit, in order. */
    var hookLog: seq<(Tip, CommitId)>

    ghost predicate Valid()
      reads this
    {
      WellFormed(store) && ValidTip(store, head) && Forked(store, forks, branches)
    }

    function Snapshot(): Vault
      reads this
    {
      Vault(store, head, Disk(files, temps, index))
    }

    /** A fresh repository: unborn branch, empty worktree. */
    constructor ()
      ensures Valid() && Snapshot() == Vault([], None, Disk(map[], [], map[]))
      ensures branches == map[] && hookLog == []
    {
      store, head, files, temps, index, branches, hookLog := [], None, map[], [], map[], map[], [];
      forks := map[];
    }

    /** A handle on a further worktree of the same repository. */
    constructor Worktree(store: Store, head: Tip, disk: Disk)
      requires WellFormed(store) && ValidTip(store, head)
      ensures Valid() && Snapshot() == Vault(store, head, disk)
      ensures branches == map[] && hookLog == []
    {
      this.store, this.head, files, temps, index := store, head, disk.files, disk.temps, disk.index;
      branches, forks, hookLog := map[], map[], [];
    }

    // -------------------------------------------------------------------------------------------
    // Objects
    // -------------------------------------------------------------------------------------------

    /** Write a commit object; no branch moves. */
    method CommitTree(tree: Tree, parents: seq<CommitId>) returns (commit: CommitId)
      requires Valid() && forall k :: 0 <= k < |parents| ==> parents[k] < |store|
      modifies this`store
      ensures Valid() && commit == |old(store)| && store == old(store) + [Commit(tree, parents)]
      ensures Extends(old(store), store)
    {
      MergeKeepsWellFormed(store, Commit(tree, parents));
      ForkedStays(store, store + [Commit(tree, parents)], forks, branches);
      commit := |store|;
      store := store + [Commit(tree, parents)];
    }

    /** Build a tree from a base in an isolated index. */
    static method BuildTree(base: Option<Tree>, changes: seq<TreeChange>) returns (tree: Tree)
      ensures tree == ApplyTreeChanges(BaseFiles(base), changes)
    {
      tree := BaseFiles(base);
      for i := 0 to |changes|
        invariant tree == ApplyTreeChanges(BaseFiles(base), changes[..i])
      {
        assert changes[..i + 1][..i] == changes[..i];
        match changes[i]
        case Put(p, x) => tree := tree[p := x];
        case Drop(p) => tree := tree - {p};
      }
      assert changes[..|changes|] == changes;
    }

    /** Fold a plan's changes into tree changes; a rename reads its source off the base tree. */
    static method ResolveTreeChanges(base: Option<Tree>, changes: seq<Change>) returns (r: Result<seq<TreeChange>, Error>)
      ensures Fold(BaseFiles(base), changes).Some? ==> r == Success(Fold(BaseFiles(base), changes).value)
      ensures Fold(BaseFiles(base), changes).None? ==>
                r == Failure(Other(MissingRenameSource(MissingSource(BaseFiles(base), changes).value)))
    {
      var out := [];
      for i := 0 to |changes|
        invariant Fold(BaseFiles(base), changes[..i]) == Some(out)
      {
        assert changes[..i + 1][..i] == changes[..i];
        match changes[i]
        case Upsert(p, x) => out := out + [Put(p, x)];
        case Remove(p) => out := out + [Drop(p)];
        case Rename(f, t) =>
          if f !in BaseFiles(base) {
            FirstMissing(BaseFiles(base), changes, i);
            return Failure(Other(MissingRenameSource(f)));
          }
          out := out + [Drop(f), Put(t, BaseFiles(base)[f])];
      }
      assert changes[..|changes|] == changes;
      r := Success(out);
    }

    // -------------------------------------------------------------------------------------------
    // Checks
    // -------------------------------------------------------------------------------------------

    /** The first path that a list names a second time. */
    static method FindDuplicate(paths: seq<Path>) returns (repeat: Option<Path>)
      ensures repeat == FirstRepeat(paths)
    {
      var seen: set<Path> := {};
      for i := 0 to |paths|
        invariant seen == Elements(paths[..i]) && FirstRepeat(paths[..i]).None?
      {
        assert paths[..i + 1][..i] == paths[..i];
        if paths[i] in seen {
          RepeatFound(paths, i);
          return Some(paths[i]);
        }
        seen := seen + {paths[i]};
      }
      assert paths[..|paths|] == paths;
      repeat := None;
    }

    /** Refuse a commit on `tip` when something is staged or a touched file differs from it. */
    method EnsureWorktreeMatchesCommit(tip: Tip, paths: seq<Path>) returns (problem: Option<Error>)
      requires Valid() && ValidTip(store, tip)
      ensures problem == WorktreeProblem(Snapshot(), tip, paths)
    {
      if index != FilesOf(store, head) {
        return Some(Other(StagedChanges));
      }
      var base := FilesOf(store, tip);
      for i := 0 to |paths|
        invariant FirstDirty(files, base, paths) == FirstDirty(files, base, paths[i..])
      {
        assert paths[i..][0] == paths[i] && paths[i..][1..] == paths[i + 1..];
        if Lookup(files, paths[i]) != Lookup(base, paths[i]) {
          return Some(Other(DirtyPath(paths[i])));
        }
      }
      problem := None;
    }

    // -------------------------------------------------------------------------------------------
    // Advancing the branch
    // -------------------------------------------------------------------------------------------

    /** Compare-and-swap: a mismatch is a conflict and moves nothing. */
    method CasRef(expected: Tip, commit: CommitId) returns (error: Option<Error>)
      requires Valid() && commit < |store|
      modifies this`head
      ensures Valid()
      ensures old(head) == expected ==> error.None? && head == Some(commit)
      ensures old(head) != expected ==> error == Some(Concurrency(RefMoved)) && head == old(head)
    {
      if head != expected {
        return Some(Concurrency(RefMoved));
      }
      head := Some(commit);
      error := None;
    }

    /** One call of the plan's builder on `tip`: a new commit, nothing to commit, or an error. */
    method BuildOn(tip: Tip, plan: ChangePlan) returns (r: Result<Option<CommitId>, Error>)
      requires Valid() && ValidTip(store, tip)
      modifies this`store
      ensures Valid() && Extends(old(store), store)
      ensures var v := old(Snapshot());
              var problem := WorktreeProblem(v, tip, plan.TouchedPaths());
              var attempt := Try(TreeOf(v.store, tip), plan);
              if problem.Some? then r == Failure(problem.value) && store == v.store
              else if attempt.Failed? then r == Failure(attempt.error) && store == v.store
              else if attempt.NoChange? then r == Success(None) && store == v.store
              else r == Success(Some(|v.store|)) && store == v.store + [Commit(attempt.tree, TipParents(tip))]
    {
      var problem := EnsureWorktreeMatchesCommit(tip, plan.TouchedPaths());
      if problem.Some? {
        return Failure(problem.value);
      }
      var base := TreeOf(store, tip);
      var stale := FirstStale(BaseFiles(base), plan.preconditions);
      if stale.Some? {
        return Failure(Concurrency(StalePrecondition(stale.value)));
      }
      var changes := ResolveTreeChanges(base, plan.changes);
      if changes.Failure? {
        return Failure(changes.error);
      }
      var tree := BuildTree(base, changes.value);
      if Some(tree) == base {
        return Success(None);
      }
      var commit := CommitTree(tree, TipParents(tip));
      r := Success(Some(commit));
    }

    /** What other processes did to this worktree since the last tip read. */
    method Meet(outside: seq<OutsideMove>)
      requires Valid()
      modifies this
      ensures Valid() && Snapshot() == Disturb(old(Snapshot()), outside)
      ensures branches == old(branches) && forks == old(forks) && hookLog == old(hookLog) && Extends(old(store), store)
    {
      if outside != [] {
        var move := outside[0];
        if ValidVault(Vault(store + move.added, move.head, move.disk)) {
          ForkedStays(store, store + move.added, forks, branches);
          store, head := store + move.added, move.head;
          files, temps, index := move.disk.files, move.disk.temps, move.disk.index;
        }
      }
    }

    /**
     * The optimistic loop: read the tip, build on it, compare-and-swap, and start over on a lost
     * race. `outside` lists what other processes do between each round's read and its swap.
     */
    method CommitWithRetryN(plan: ChangePlan, maxRetries: nat, outside: seq<OutsideMove>)
      returns (r: Result<Option<CommitId>, Error>, parent: Tip)
      requires Valid()
      modifies this
      ensures Valid() && branches == old(branches) && forks == old(forks) && hookLog == old(hookLog)
      ensures (Snapshot(), Answer(r, parent)) == Rounds(old(Snapshot()), plan, maxRetries + 1, outside)
    {
      hide Try, Touched, WellFormed, WorktreeProblem, FirstRepeat;
      var rest := outside;
      for round := 0 to maxRetries + 1
        invariant Valid() && branches == old(branches) && forks == old(forks) && hookLog == old(hookLog)
        invariant Rounds(old(Snapshot()), plan, maxRetries + 1, outside)
               == Rounds(Snapshot(), plan, maxRetries + 1 - round, rest)
      {
        var tip := head;
        var built := BuildOn(tip, plan);
        if built.Failure? {
          return Failure(built.error), tip;
        }
        if built.value.None? {
          return Success(None), tip;
        }
        Meet(rest);
        var lost := CasRef(tip, built.value.value);
        if lost.None? {
          return Success(built.value), tip;
        }
        rest := Rest(rest);
      }
      r, parent := Failure(Other(RetriesExhausted)), None;
    }

    /** The loop with the default budget. */
    method CommitWithRetry(plan: ChangePlan, outside: seq<OutsideMove>)
      returns (r: Result<Option<CommitId>, Error>, parent: Tip)
      requires Valid()
      modifies this
      ensures Valid() && branches == old(branches) && forks == old(forks) && hookLog == old(hookLog)
      ensures (Snapshot(), Answer(r, parent)) == Rounds(old(Snapshot()), plan, DEFAULT_MAX_RETRIES + 1, outside)
    {
      r, parent := CommitWithRetryN(plan, DEFAULT_MAX_RETRIES, outside);
    }

    // -------------------------------------------------------------------------------------------
    // Showing a commit
    // -------------------------------------------------------------------------------------------

    /** Bring one path to what `tree` has there: through a temporary file, or by deleting it. */
    method MaterializePath(tree: Tree, p: Path)
      modifies this`files, this`temps
      ensures Snapshot().disk == RunDisk(old(Snapshot()).disk, PathSteps(tree, p))
    {
      if p in tree {
        temps := temps + [tree[p]];
        files, temps := files[p := temps[|temps| - 1]], temps[..|temps| - 1];
      } else if p in files {
        files := files - {p};
      }
      ShownPath(old(Snapshot()).disk, Snapshot().disk, tree, p);
    }

    /** Write the listed paths of a commit into the working tree, then sync the index. */
    method Materialize(commit: CommitId, paths: seq<Path>)
      requires Valid() && commit < |store|
      modifies this`files, this`temps, this`index
      ensures Valid()
      ensures Snapshot().disk == RunDisk(old(Snapshot()).disk, Script(store[commit].tree, paths))
      ensures index == store[commit].tree && temps == old(temps)
      ensures Shows(old(files), store[commit].tree, paths, files)
    {
      hide PathSteps, Shows;
      var tree := store[commit].tree;
      ghost var start := Snapshot().disk;
      for i := 0 to |paths|
        invariant Valid()
        invariant Snapshot().disk == RunDisk(start, FileSteps(tree, paths[..i]))
      {
        assert paths[..i + 1][..i] == paths[..i];
        RunConcat(start, FileSteps(tree, paths[..i]), PathSteps(tree, paths[i]));
        MaterializePath(tree, paths[i]);
      }
      assert paths[..|paths|] == paths;
      index := tree;
      ScriptEnds(start, tree, paths);
      MaterializeShows(start, tree, paths);
    }

    /** Show the listed paths of HEAD again, as after a crash; nothing to do on an unborn branch. */
    method ResyncToHead(paths: seq<Path>)
      requires Valid()
      modifies this`files, this`temps, this`index
      ensures Valid()
      ensures head.None? ==> files == old(files) && temps == old(temps) && index == old(index)
      ensures head.Some? ==>
                Snapshot().disk == RunDisk(old(Snapshot()).disk, Script(store[head.value].tree, paths))
    {
      if head.Some? {
        Materialize(head.value, paths);
      }
    }

    // -------------------------------------------------------------------------------------------
    // Changesets
    // -------------------------------------------------------------------------------------------

    /** Apply a plan as one commit. */
    method CommitChangeset(plan: ChangePlan, outside: seq<OutsideMove>) returns (r: Result<ChangesetResult, Error>)
      requires Valid()
      modifies this
      ensures Valid() && branches == old(branches) && forks == old(forks)
      ensures (Snapshot(), r) == ChangesetOn(old(Snapshot()), plan, outside)
      ensures r.Success? && !r.value.noOp ==>
                && head == Some(r.value.commit) && index == FilesOf(store, head)
                && |hookLog| == |old(hookLog)| + 1 && hookLog[..|old(hookLog)|] == old(hookLog)
                && hookLog[|old(hookLog)|].1 == r.value.commit
                && AtomicCommit(store, hookLog[|old(hookLog)|].0, head, plan)
      ensures r.Success? && r.value.noOp ==>
                head == Some(r.value.commit) && AtomicNoOp(store, head, plan) && hookLog == old(hookLog)
      ensures r.Failure? ==> hookLog == old(hookLog)
      ensures outside == [] ==> ComesTo(old(Snapshot()), plan, Snapshot(), r)
      ensures outside == [] ==>
                ((r.Failure? && r.error.Concurrency?) <==>
                 WellPosed(plan) && Clean(old(Snapshot()), plan.TouchedPaths()) && SomeViolated(FilesOf(old(store), old(head)), plan))
      ensures r.Failure? && outside == [] ==>
                head == old(head) && files == old(files) && temps == old(temps) && index == old(index)
    {
      hide Try, Touched, Script, RunDisk, Rounds, AtomicCommit, AtomicNoOp, WellFormed, Shows, WorktreeProblem, Clean, WellPosed,
           SomeViolated, ComesTo;
      WhenCallsConflict(Snapshot(), plan, DEFAULT_MAX_RETRIES, outside);
      AloneComesTo(Snapshot(), plan, DEFAULT_MAX_RETRIES);
      if outside == [] && ChangesetOn(Snapshot(), plan, []).1.Failure? {
        AloneFailureChangesNothing(Snapshot(), plan, DEFAULT_MAX_RETRIES);
      }
      if plan.changes == [] {
        return Failure(Other(EmptyPlan));
      }
      var changed := plan.TouchedPaths();
      var repeat := FindDuplicate(changed);
      if repeat.Some? {
        return Failure(Other(DuplicatePath(repeat.value)));
      }
      RoundsValid(Snapshot(), plan, DEFAULT_MAX_RETRIES + 1, outside);
      RoundsMeaning(Snapshot(), plan, DEFAULT_MAX_RETRIES + 1, outside);
      var committed, parent := CommitWithRetry(plan, outside);
      match committed
      case Failure(e) => r := Failure(e);
      case Success(None) => r := Success(ChangesetResult(parent.value, [], true));
      case Success(Some(commit)) =>
        Materialize(commit, changed);
        hookLog := hookLog + [(parent, commit)];
        r := Success(ChangesetResult(commit, changed, false));
    }

    // -------------------------------------------------------------------------------------------
    // History
    // -------------------------------------------------------------------------------------------

    /** The first-parent commits above `stop` up to `tip`, oldest first; none if `stop` is off that chain. */
    method FirstParentRange(stop: Tip, tip: CommitId) returns (range: Option<seq<CommitId>>)
      requires Valid() && tip < |store|
      ensures range.Some? <==> stop.None? || OnChain(store, stop.value, tip)
      ensures range.Some? ==> IsRange(store, stop, tip, range.value)
    {
      var chain: seq<CommitId> := [];
      var cur: Tip := Some(tip);
      while cur.Some?
        invariant ValidTip(store, cur)
        invariant cur.Some? ==> stop.Some? ==> (OnChain(store, stop.value, tip) <==> OnChain(store, stop.value, cur.value))
        invariant cur.None? ==> stop.Some? ==> !OnChain(store, stop.value, tip)
        invariant Linked(store, cur, Reversed(chain)) && (stop.Some? ==> stop.value !in chain)
        invariant if chain == [] then cur == Some(tip) else chain[0] == tip
        decreases if cur.Some? then cur.value + 1 else 0
      {
        var c := cur.value;
        if Some(c) == stop {
          return Some(Reversed(chain));
        }
        assert Reversed(chain + [c]) == [c] + Reversed(chain);
        assert FirstParent(store, c).Some? ==> FirstParent(store, c).value < c;
        chain := chain + [c];
        cur := FirstParent(store, c);
      }
      range := if stop.None? then Some(Reversed(chain)) else None;
    }

    /** Each path that differs between two trees, once. */
    static method DiffPaths(a: Tree, b: Tree) returns (paths: seq<Path>)
      ensures ListsDiff(paths, a, b)
    {
      var todo := set p | p in a.Keys + b.Keys && Lookup(a, p) != Lookup(b, p);
      ghost var all := todo;
      paths := [];
      while todo != {}
        invariant NoDup(paths) && todo <= all
        invariant forall p :: p in all <==> p in todo || p in paths
        invariant forall p :: p in todo ==> p !in paths
        decreases |todo|
      {
        var p :| p in todo;
        NoDupConcat(paths, [p]) by {
          assert forall q :: q in [p] ==> q == p;
        }
        paths, todo := paths + [p], todo - {p};
      }
      assert forall p :: p in paths <==> p in all;
    }

    method PathsChangedBetween(a: CommitId, b: CommitId) returns (paths: seq<Path>)
      requires Valid() && a < |store| && b < |store|
      ensures ListsDiff(paths, store[a].tree, store[b].tree)
    {
      paths := DiffPaths(store[a].tree, store[b].tree);
    }

    /** Per-path changes from `a`, or from the empty tree, to `b`. */
    method DiffPathChanges(a: Tip, b: CommitId) returns (diff: seq<(Path, PathChange)>)
      requires Valid() && ValidTip(store, a) && b < |store|
      ensures IsDiff(FilesOf(store, a), store[b].tree, diff)
    {
      var from, to := FilesOf(store, a), store[b].tree;
      var paths := DiffPaths(from, to);
      diff := [];
      for i := 0 to |paths|
        invariant |diff| == i
        invariant forall k :: 0 <= k < i ==> Lookup(from, paths[k]) != Lookup(to, paths[k])
        invariant forall k :: 0 <= k < i ==> diff[k] == (paths[k], ChangeOf(from, to, paths[k]))
      {
        assert paths[i] in paths;
        diff := diff + [(paths[i], ChangeOf(from, to, paths[i]))];
      }
      forall p | Lookup(from, p) != Lookup(to, p) ensures exists i :: 0 <= i < |diff| && diff[i].0 == p {
        assert p in paths;
        var i :| 0 <= i < |paths| && paths[i] == p;
        assert diff[i].0 == p;
      }
    }

    // -------------------------------------------------------------------------------------------
    // Restore
    // -------------------------------------------------------------------------------------------

    /** The plan that takes the listed paths back to `target`, guarded by what HEAD holds now. */
    method BuildRestoreChangeset(target: CommitId, paths: seq<Path>) returns (r: Result<Option<ChangePlan>, Error>)
      requires Valid() && target < |store|
      ensures head.None? ==> r == Failure(Other(UnbornBranch))
      ensures head.Some? ==>
                var plan := RestorePlan(FilesOf(store, head), store[target].tree, paths);
                r == Success(if plan.changes == [] then None else Some(plan))
    {
      if head.None? {
        return Failure(Other(UnbornBranch));
      }
      var now, goal := store[head.value].tree, store[target].tree;
      var plan := EMPTY_PLAN;
      var any := false;
      for i := 0 to |paths|
        invariant plan == RestorePlan(now, goal, paths[..i]) && any == (plan.changes != [])
      {
        assert paths[..i + 1][..i] == paths[..i];
        var p := paths[i];
        if Lookup(now, p) != Lookup(goal, p) {
          match (Lookup(now, p), Lookup(goal, p)) {
            case (Some(c), Some(t)) => plan := plan.Update(p, t, NamesBlob(c));
            case (Some(c), None) => plan := plan.Delete(p, NamesBlob(c));
            case (None, Some(t)) => plan := plan.Create(p, t);
          }
          any := true;
        }
      }
      assert paths[..|paths|] == paths;
      r := Success(if any then Some(plan) else None);
    }

    // -------------------------------------------------------------------------------------------
    // Fan-outs
    // -------------------------------------------------------------------------------------------

    /** Fork a scratch branch off HEAD. */
    method OpenFanout(branch: string) returns (r: Result<FanoutInfo, Error>)
      requires Valid()
      modifies this`branches, this`forks
      ensures Valid()
      ensures head.None? ==> r == Failure(Other(UnbornBranch))
      ensures head.Some? && branch in old(branches) ==> r == Failure(Other(BranchTaken))
      ensures head.Some? && branch !in old(branches) ==> r == Success(FanoutInfo(branch, head.value))
      ensures r.Failure? ==> branches == old(branches) && forks == old(forks)
      ensures r.Success? ==> branches == old(branches)[branch := head.value] && Issued(r.value)
    {
      if head.None? {
        return Failure(Other(UnbornBranch));
      }
      if branch in branches {
        return Failure(Other(BranchTaken));
      }
      assert Ancestor(store, head.value, head.value);
      branches, forks := branches[branch := head.value], forks[branch := head.value];
      r := Success(FanoutInfo(branch, head.value));
    }

    /** The handle is one that opening the fan-out gave out. */
    ghost predicate Issued(info: FanoutInfo)
      reads this
    {
      info.branch in forks && forks[info.branch] == info.fork
    }

    /** A changeset in the fan-out's own worktree: the same pipeline, on the scratch branch. */
    method CommitOnFanout(branch: string, plan: ChangePlan, disk: Disk) returns (r: Result<ChangesetResult, Error>, after: Disk)
      requires Valid() && branch in branches
      modifies this`store, this`branches
      ensures Valid() && Extends(old(store), store) && branches.Keys == old(branches).Keys
      ensures forall b :: b in branches && b != branch ==> branches[b] == old(branches)[b]
      ensures (Vault(store, Some(branches[branch]), after), r)
           == ChangesetOn(Vault(old(store), Some(old(branches)[branch]), disk), plan, [])
      ensures Descends(store, Some(old(branches)[branch]), Some(branches[branch]))
    {
      hide ChangesetWithin, Ancestor;
      ghost var v := Vault(store, Some(branches[branch]), disk);
      AloneGoesForward(v, plan, DEFAULT_MAX_RETRIES);
      var scratch := new VaultRepo.Worktree(store, Some(branches[branch]), disk);
      r := scratch.CommitChangeset(plan, []);
      assert scratch.Snapshot() == ChangesetOn(v, plan, []).0;
      ForkedStays(store, scratch.store, forks, branches);
      ForkedAdvances(scratch.store, forks, branches, branch, scratch.head.value);
      store, branches := scratch.store, branches[branch := scratch.head.value];
      after := Disk(scratch.files, scratch.temps, scratch.index);
    }

    /**
     * The critical section of a merge-back: read both tips, prepare the advance, compare-and-swap,
     * and show what changed. `outside` is what other processes do before the swap.
     */
    method MergeInner(info: FanoutInfo, strategy: Strategy, mergeTrees: TreeMerge, outside: seq<OutsideMove>)
      returns (r: Result<MergeBackResult, Error>)
      requires Valid()
      modifies this
      ensures Valid() && branches == old(branches) && forks == old(forks) && hookLog == old(hookLog) && Extends(old(store), store)
      ensures var v := old(Snapshot());
              match old(Proposal(info, strategy, mergeTrees))
              case Failure(e) => r == Failure(e) && Snapshot() == v
              case Success(None) => r == Success(MergeBackResult(v.head.value, v.head.value, None)) && Snapshot() == v
              case Success(Some(a)) =>
                var met := Disturb(v.(store := v.store + a.added), outside);
                if met.head != v.head then r == Failure(Concurrency(RefMoved)) && Snapshot() == met
                else
                  && r == Success(MergeBackResult(v.head.value, a.tip, a.mergeCommit))
                  && store == met.store && head == Some(a.tip)
                  && index == FilesOf(store, head) && temps == met.disk.temps
                  && RevealsDiff(met.disk.files, FilesOf(met.store, met.head), FilesOf(store, head), files)
                  && (Coherent(met.disk, FilesOf(met.store, met.head)) ==> Coherent(Snapshot().disk, FilesOf(store, head)))
    {
      hide RevealsDiff, Coherent, Forked, WellFormed;
      if info.branch !in branches || head.None? {
        return Failure(Other(MissingBranch));
      }
      TipInStore(info.branch);
      var wip, main := branches[info.branch], head.value;
      if wip == info.fork {
        return Success(MergeBackResult(main, main, None));
      }
      match strategy
      case FastForward =>
        if main != info.fork {
          return Failure(Other(NotFastForward));
        }
        assert store + [] == store;
        Meet(outside);
        var lost := CasRef(Some(main), wip);
        if lost.Some? {
          return Failure(lost.value);
        }
        ShowMerge(main, wip);
        r := Success(MergeBackResult(main, wip, None));
      case MergeCommit =>
        if info.fork >= |store| {
          return Failure(Other(MissingCommit));
        }
        var merged := mergeTrees(store[info.fork].tree, store[main].tree, store[wip].tree);
        if merged.None? {
          return Failure(Other(MergeConflict));
        }
        var commit := CommitTree(merged.value, [main, wip]);
        Meet(outside);
        var lost := CasRef(Some(main), commit);
        if lost.Some? {
          return Failure(lost.value);
        }
        ShowMerge(main, commit);
        r := Success(MergeBackResult(main, commit, Some(commit)));
    }

    lemma TipInStore(branch: string)
      requires Valid() && branch in branches
      ensures branches[branch] < |store| && branch in forks && Ancestor(store, forks[branch], branches[branch])
    {
    }

    /** What merging the fan-out back proposes now. */
    ghost function Proposal(info: FanoutInfo, strategy: Strategy, mergeTrees: TreeMerge): Result<Option<Advance>, Error>
      requires Valid()
      reads this
    {
      MergeProposal(Snapshot(), if info.branch in branches then Some(branches[info.branch]) else None, info.fork, strategy, mergeTrees)
    }

    /** Show every path in which the branch's new commit differs from its old one. */
    method ShowMerge(before: CommitId, after: CommitId)
      requires Valid() && before < |store| && after < |store|
      modifies this`files, this`temps, this`index
      ensures Valid() && index == store[after].tree && temps == old(temps)
      ensures RevealsDiff(old(files), store[before].tree, store[after].tree, files)
      ensures Coherent(old(Snapshot()).disk, store[before].tree) ==> Coherent(Snapshot().disk, store[after].tree)
    {
      var changed := PathsChangedBetween(before, after);
      ghost var was := Snapshot().disk;
      Materialize(after, changed);
      if Coherent(was, store[before].tree) {
        MaterializeKeepsCoherence(was, store[before].tree, store[after].tree, changed);
      }
    }

    /** Merge a fan-out back and clean it up, whether or not the merge went through. */
    method MergeFanoutBack(info: FanoutInfo, strategy: Strategy, mergeTrees: TreeMerge, outside: seq<OutsideMove>)
      returns (r: Result<MergeBackResult, Error>)
      requires Valid()
      modifies this
      ensures Valid() && branches == old(branches) - {info.branch} && Extends(old(store), store)
      ensures r.Failure? && (outside == [] || r.error.Other?) ==> Snapshot() == old(Snapshot())
      ensures r.Success? ==>
                && info.branch in old(branches) && old(head).Some?
                && r.value.before == old(head).value && head == Some(r.value.after)
                && (old(Issued(info)) || strategy.MergeCommit? ==> Descends(store, old(head), head))
                && (r.value.before != r.value.after ==> Descends(store, Some(old(branches)[info.branch]), head))
      ensures r.Success? && old(branches)[info.branch] != info.fork ==>
                var ours, theirs := FilesOf(old(store), old(head)), old(store)[old(branches)[info.branch]].tree;
                && (strategy.FastForward? ==> FilesOf(store, head) == theirs)
                && (strategy.MergeCommit? ==>
                      && info.fork < |old(store)|
                      && mergeTrees(old(store)[info.fork].tree, ours, theirs) == Some(FilesOf(store, head))
                      && (TakesChangedSide(mergeTrees) && old(head) == Some(info.fork) ==> FilesOf(store, head) == theirs))
    {
      hide RevealsDiff, Coherent, WellFormed, Ancestor, MergeProposal;
      ghost var p := Proposal(info, strategy, mergeTrees);
      if info.branch in branches {
        TipInStore(info.branch);
      }
      MergeMeaning(Snapshot(), if info.branch in branches then Some(branches[info.branch]) else None, info.fork, strategy, mergeTrees);
      MergeFiles(Snapshot(), if info.branch in branches then Some(branches[info.branch]) else None, info.fork, strategy, mergeTrees);
      r := MergeInner(info, strategy, mergeTrees, outside);
      if p.Success? && p.value.Some? {
        ghost var built := old(store) + p.value.value.added;
        assert store[p.value.value.tip] == built[p.value.value.tip];
        DescendsStable(built, store, old(head), Some(p.value.value.tip));
        DescendsStable(built, store, Some(old(branches)[info.branch]), Some(p.value.value.tip));
      } else if r.Success? {
        SelfDescends(store, head);
      }
      branches, forks := branches - {info.branch}, forks - {info.branch};
    }
  }
}
