/** What one call on a vault computes, as functions of the vault and of the outside moves it meets. */
module VaultSpec {
  import opened Wrappers
  import opened Sequences
  import opened ChangePlans
  import opened ObjectStore
  import opened TreeBuilding
  import opened Attempts
  import opened Materialization
  import opened WriteProtocol
  import opened AtomicWrites

  /** A worktree and its branch, seen from outside. */
  datatype Vault = Vault(store: Store, head: Tip, disk: Disk)

  predicate ValidVault(v: Vault) {
    WellFormed(v.store) && ValidTip(v.store, v.head)
  }

  /** What other processes do between one round's tip read and its compare-and-swap. */
  datatype OutsideMove = OutsideMove(added: seq<Commit>, head: Tip, disk: Disk)

  /** A move whose commits or branch would dangle is no move at all. */
  function Disturb(v: Vault, outside: seq<OutsideMove>): Vault {
    if outside == [] then v
    else
      var move := outside[0];
      if ValidVault(Vault(v.store + move.added, move.head, move.disk)) then Vault(v.store + move.added, move.head, move.disk)
      else v
  }

  function Rest(outside: seq<OutsideMove>): seq<OutsideMove> {
    if outside == [] then [] else outside[1..]
  }

  /** The first touched path, in order, whose file is not what the base commit has there. */
  function FirstDirty(files: Tree, base: Tree, paths: seq<Path>): (dirty: Option<Path>)
    ensures dirty.None? <==> forall p :: p in paths ==> Lookup(files, p) == Lookup(base, p)
    ensures dirty.Some? ==> exists k :: EditedFirst(files, base, paths, k) && paths[k] == dirty.value
  {
    if paths == [] then None
    else if Lookup(files, paths[0]) != Lookup(base, paths[0]) then
      assert EditedFirst(files, base, paths, 0);
      Some(paths[0])
    else
      var later := FirstDirty(files, base, paths[1..]);
      assert later.Some? ==> exists k :: EditedFirst(files, base, paths, k) && paths[k] == later.value by {
        if later.Some? {
          var k :| EditedFirst(files, base, paths[1..], k) && paths[1..][k] == later.value;
          assert EditedFirst(files, base, paths, k + 1);
        }
      }
      later
  }

  ghost predicate EditedFirst(files: Tree, base: Tree, paths: seq<Path>, k: int) {
    && 0 <= k < |paths|
    && Lookup(files, paths[k]) != Lookup(base, paths[k])
    && forall j :: 0 <= j < k ==> Lookup(files, paths[j]) == Lookup(base, paths[j])
  }

  /** Why a commit on `tip` must not proceed: something is staged, or a touched file was edited. */
  function WorktreeProblem(v: Vault, tip: Tip, paths: seq<Path>): Option<Error>
    requires ValidVault(v) && ValidTip(v.store, tip)
  {
    if v.disk.index != FilesOf(v.store, v.head) then Some(Other(StagedChanges))
    else
      var dirty := FirstDirty(v.disk.files, FilesOf(v.store, tip), paths);
      if dirty.Some? then Some(Other(DirtyPath(dirty.value))) else None
  }

  /** The answer of the optimistic loop, and the tip its last round built on. */
  datatype Answer = Answer(result: Result<Option<CommitId>, Error>, parent: Tip)

  /** The optimistic loop with `left` rounds to go. */
  function Rounds(v: Vault, plan: ChangePlan, left: nat, outside: seq<OutsideMove>): (Vault, Answer)
    requires ValidVault(v)
    decreases left
  {
    if left == 0 then (v, Answer(Failure(Other(RetriesExhausted)), None))
    else
      var tip := v.head;
      var problem := WorktreeProblem(v, tip, plan.TouchedPaths());
      if problem.Some? then (v, Answer(Failure(problem.value), tip))
      else
        match Try(TreeOf(v.store, tip), plan)
        case Failed(e) => (v, Answer(Failure(e), tip))
        case NoChange => (v, Answer(Success(None), tip))
        case Built(tree) =>
          AddedCommitOk(v, tree);
          var met := Disturb(v.(store := v.store + [Commit(tree, TipParents(tip))]), outside);
          if met.head == tip then (met.(head := Some(|v.store|)), Answer(Success(Some(|v.store|)), tip))
          else Rounds(met, plan, left - 1, Rest(outside))
  }

  lemma AddedCommitOk(v: Vault, tree: Tree)
    requires ValidVault(v)
    ensures ValidVault(v.(store := v.store + [Commit(tree, TipParents(v.head))]))
  {
    var store' := v.store + [Commit(tree, TipParents(v.head))];
    forall b, k | 0 <= b < |store'| && 0 <= k < |store'[b].parents| ensures store'[b].parents[k] < b {
      if b < |v.store| {
        assert store'[b] == v.store[b];
      }
    }
  }

  /** A committed changeset, or the unchanged head it found its changes already in. */
  datatype ChangesetResult = ChangesetResult(commit: CommitId, paths: seq<Path>, noOp: bool)

  lemma DisturbValid(v: Vault, outside: seq<OutsideMove>)
    requires ValidVault(v)
    ensures ValidVault(Disturb(v, outside)) && Extends(v.store, Disturb(v, outside).store)
  {
  }

  lemma RoundsValid(v: Vault, plan: ChangePlan, left: nat, outside: seq<OutsideMove>)
    requires ValidVault(v)
    ensures ValidVault(Rounds(v, plan, left, outside).0)
    ensures var (w, a) := Rounds(v, plan, left, outside);
            && Extends(v.store, w.store)
            && (a.result.Success? && a.result.value.Some? ==> a.result.value.value < |w.store| && w.head == a.result.value)
            && (a.result == Success(None) ==> a.parent.Some? && a.parent == w.head)
    decreases left
  {
    hide Try, Touched, WorktreeProblem, WellFormed, Disturb;
    if left > 0 {
      var tip := v.head;
      var attempt := Try(TreeOf(v.store, tip), plan);
      TryResults(TreeOf(v.store, tip), plan);
      if WorktreeProblem(v, tip, plan.TouchedPaths()).None? && attempt.Built? {
        AddedCommitOk(v, attempt.tree);
        var built := v.(store := v.store + [Commit(attempt.tree, TipParents(tip))]);
        DisturbValid(built, outside);
        var met := Disturb(built, outside);
        if met.head != tip {
          RoundsValid(met, plan, left - 1, Rest(outside));
        }
      }
    }
  }

  /** The whole of `commit_changeset`, with its default retry budget. */
  function ChangesetOn(v: Vault, plan: ChangePlan, outside: seq<OutsideMove>): (Vault, Result<ChangesetResult, Error>)
    requires ValidVault(v)
  {
    ChangesetWithin(v, plan, DEFAULT_MAX_RETRIES, outside)
  }

  /** A changeset with any retry budget: checks, rounds, and the reveal of what landed. */
  function ChangesetWithin(v: Vault, plan: ChangePlan, retries: nat, outside: seq<OutsideMove>): (Vault, Result<ChangesetResult, Error>)
    requires ValidVault(v)
  {
    var problem := Problem(plan);
    if problem.Some? then (v, Failure(Other(problem.value)))
    else
      RoundsValid(v, plan, retries + 1, outside);
      var (w, answer) := Rounds(v, plan, retries + 1, outside);
      match answer.result
      case Failure(e) => (w, Failure(e))
      case Success(None) => (w, Success(ChangesetResult(answer.parent.value, [], true)))
      case Success(Some(c)) =>
        (w.(disk := RunDisk(w.disk, Script(w.store[c].tree, plan.TouchedPaths()))),
         Success(ChangesetResult(c, plan.TouchedPaths(), false)))
  }

  // ---------------------------------------------------------------------------------------------
  // What the answers mean
  // ---------------------------------------------------------------------------------------------

  lemma TryIsAtomic(store: Store, tip: Tip, plan: ChangePlan, c: CommitId)
    requires ValidTip(store, tip) && NoDup(plan.TouchedPaths())
    ensures Try(TreeOf(store, tip), plan).NoChange? ==> AtomicNoOp(store, tip, plan)
    ensures c < |store| && Try(TreeOf(store, tip), plan) == Built(store[c].tree) && store[c].parents == TipParents(tip) ==>
              AtomicCommit(store, tip, Some(c), plan)
    ensures (Try(TreeOf(store, tip), plan).Failed? && Try(TreeOf(store, tip), plan).error.Concurrency?) <==>
              !AllHold(FilesOf(store, tip), plan)
  {
    AttemptMeaning(TreeOf(store, tip), plan);
    BaseIsFiles(store, tip);
  }

  lemma ProblemIsNoConflict(v: Vault, tip: Tip, paths: seq<Path>)
    requires ValidVault(v) && ValidTip(v.store, tip)
    ensures WorktreeProblem(v, tip, paths).Some? ==> !WorktreeProblem(v, tip, paths).value.Concurrency?
  {
  }

  /** The rounds end in an atomic commit on the tip they report, in a justified no-op, or in an error. */
  lemma {:induction false} RoundsMeaning(v: Vault, plan: ChangePlan, left: nat, outside: seq<OutsideMove>)
    requires ValidVault(v) && NoDup(plan.TouchedPaths())
    ensures var (w, a) := Rounds(v, plan, left, outside);
            && ValidVault(w)
            && (a.result.Success? && a.result.value.Some? ==> AtomicCommit(w.store, a.parent, w.head, plan))
            && (a.result == Success(None) ==> AtomicNoOp(w.store, w.head, plan))
            && (a.result.Failure? && a.result.error.Concurrency? ==> !AllHold(FilesOf(w.store, w.head), plan))
    decreases left
  {
    hide PlanEffect, AllHold, Touched, AtomicCommit, AtomicNoOp, WellFormed, Try, WorktreeProblem, Disturb;
    RoundsValid(v, plan, left, outside);
    if left > 0 {
      var tip := v.head;
      var attempt := Try(TreeOf(v.store, tip), plan);
      TryIsAtomic(v.store, tip, plan, 0);
      ProblemIsNoConflict(v, tip, plan.TouchedPaths());
      if WorktreeProblem(v, tip, plan.TouchedPaths()).None? && attempt.Built? {
        AddedCommitOk(v, attempt.tree);
        var built := v.(store := v.store + [Commit(attempt.tree, TipParents(tip))]);
        DisturbValid(built, outside);
        var met := Disturb(built, outside);
        if met.head != tip {
          RoundsMeaning(met, plan, left - 1, Rest(outside));
        } else {
          BuiltStays(v, built, met, attempt.tree, outside);
          TryIsAtomic(met.store, tip, plan, |v.store|);
        }
      }
    }
  }

  lemma BuiltStays(v: Vault, built: Vault, met: Vault, tree: Tree, outside: seq<OutsideMove>)
    requires ValidVault(v) && built == v.(store := v.store + [Commit(tree, TipParents(v.head))])
    requires met == Disturb(built, outside)
    ensures |v.store| < |met.store| && met.store[|v.store|] == Commit(tree, TipParents(v.head))
    ensures ValidTip(met.store, v.head) && TreeOf(met.store, v.head) == TreeOf(v.store, v.head)
  {
    if v.head.Some? {
      assert met.store[v.head.value] == v.store[v.head.value];
    }
  }

  /** Left alone, a call that fails has changed neither branch nor index nor working tree. */
  lemma AloneFailureChangesNothing(v: Vault, plan: ChangePlan, retries: nat)
    requires ValidVault(v) && ChangesetWithin(v, plan, retries, []).1.Failure?
    ensures ChangesetWithin(v, plan, retries, []).0.head == v.head && ChangesetWithin(v, plan, retries, []).0.disk == v.disk
    ensures !(ChangesetWithin(v, plan, retries, []).1 == Failure(Other(RetriesExhausted)))
  {
    hide Try, Touched, FirstStale;
    RoundsValid(v, plan, retries + 1, []);
    if Problem(plan).None? && WorktreeProblem(v, v.head, plan.TouchedPaths()).None? {
      TryResults(TreeOf(v.store, v.head), plan);
    }
  }

  /** Nothing is staged, and no touched file differs from the tip. */
  ghost predicate Clean(v: Vault, paths: seq<Path>)
    requires ValidVault(v)
  {
    v.disk.index == FilesOf(v.store, v.head) && forall p :: p in paths ==> Lookup(v.disk.files, p) == Lookup(FilesOf(v.store, v.head), p)
  }

  /** The plan has changes and mutates no path twice. */
  ghost predicate WellPosed(plan: ChangePlan) {
    plan.changes != [] && NoDup(plan.TouchedPaths())
  }

  ghost predicate SomeViolated(files: Tree, plan: ChangePlan) {
    exists e :: e in plan.preconditions && Violated(files, e)
  }

  /**
   * A well-posed plan on a clean worktree whose HEAD violates one of its preconditions ends in a
   * conflict, whatever others do; left alone, a call ends in a conflict only then.
   */
  lemma WhenCallsConflict(v: Vault, plan: ChangePlan, retries: nat, outside: seq<OutsideMove>)
    requires ValidVault(v)
    ensures var r := ChangesetWithin(v, plan, retries, outside).1;
            var stale := WellPosed(plan) && Clean(v, plan.TouchedPaths()) && SomeViolated(FilesOf(v.store, v.head), plan);
            && (stale ==> r.Failure? && r.error.Concurrency?)
            && (outside == [] ==> ((r.Failure? && r.error.Concurrency?) <==> stale))
  {
    hide Try, Touched, Violated;
    RoundsValid(v, plan, retries + 1, outside);
    ConflictMeaning(TreeOf(v.store, v.head), plan);
  }

  /** Nothing was committed, and no file, index entry or branch changed. */
  ghost predicate Refusal(v: Vault, w: Vault, r: Result<ChangesetResult, Error>, e: Error) {
    r == Failure(e) && w == v
  }

  /** The tree in which the plan is in force already, on a branch that has commits. */
  ghost predicate InForce(v: Vault, plan: ChangePlan)
    requires ValidVault(v)
  {
    v.head.Some? && PlanEffect(FilesOf(v.store, v.head), plan.changes, FilesOf(v.store, v.head))
  }

  /**
   * What a call left alone comes to, first cause first: no changes, a path mutated twice, staged
   * changes, an edited file, a violated precondition, a rename without source; if none of these,
   * the unchanged head if the plan is in force there already, and otherwise a commit on it.
   */
  ghost predicate ComesTo(v: Vault, plan: ChangePlan, w: Vault, r: Result<ChangesetResult, Error>)
    requires ValidVault(v)
  {
    var files, paths := FilesOf(v.store, v.head), plan.TouchedPaths();
    if plan.changes == [] then Refusal(v, w, r, Other(EmptyPlan))
    else if !NoDup(paths) then exists k :: RepeatsFirst(paths, k) && Refusal(v, w, r, Other(DuplicatePath(paths[k])))
    else if v.disk.index != files then Refusal(v, w, r, Other(StagedChanges))
    else if !Clean(v, paths) then
      exists k :: EditedFirst(v.disk.files, files, paths, k) && Refusal(v, w, r, Other(DirtyPath(paths[k])))
    else if SomeViolated(files, plan) then
      exists k, p :: ViolatedFirst(files, plan.preconditions, k, p) && Refusal(v, w, r, Concurrency(StalePrecondition(p)))
    else if exists k :: 0 <= k < |plan.changes| && LacksSource(files, plan.changes[k]) then
      exists k :: FirstLacking(files, plan.changes, k) && Refusal(v, w, r, Other(MissingRenameSource(plan.changes[k].from)))
    else if InForce(v, plan) then w == v && r == Success(ChangesetResult(v.head.value, [], true))
    else
      && r == Success(ChangesetResult(|v.store|, paths, false))
      && |w.store| == |v.store| + 1 && Extends(v.store, w.store) && w.head == Some(|v.store|)
      && w.store[|v.store|].parents == TipParents(v.head)
      && PlanEffect(files, plan.changes, w.store[|v.store|].tree)
  }

  lemma TryOutcomes(base: Option<Tree>, plan: ChangePlan)
    requires NoDup(plan.TouchedPaths())
    ensures var files, attempt := BaseFiles(base), Try(base, plan);
            var lacks := exists k :: 0 <= k < |plan.changes| && LacksSource(files, plan.changes[k]);
            && (!SomeViolated(files, plan) && lacks ==>
                  exists k :: FirstLacking(files, plan.changes, k)
                    && attempt == Failed(Other(MissingRenameSource(plan.changes[k].from))))
            && (!SomeViolated(files, plan) && !lacks ==>
                  !attempt.Failed? && (attempt.NoChange? <==> base.Some? && PlanEffect(files, plan.changes, files)))
  {
    hide PlanEffect, Violated, LacksSource;
    var files := BaseFiles(base);
    ConflictMeaning(base, plan);
    AttemptMeaning(base, plan);
    if base.Some? && PlanEffect(files, plan.changes, files) && Try(base, plan).Built? {
      PlanEffectUnique(files, plan.changes, files, Try(base, plan).tree);
    }
  }

  /** Left alone, the first round decides. */
  lemma AloneRound(v: Vault, plan: ChangePlan, left: nat)
    requires ValidVault(v) && left > 0
    ensures var problem, attempt := WorktreeProblem(v, v.head, plan.TouchedPaths()), Try(TreeOf(v.store, v.head), plan);
            var answer := Rounds(v, plan, left, []);
            if problem.Some? then answer == (v, Answer(Failure(problem.value), v.head))
            else if attempt.Failed? then answer == (v, Answer(Failure(attempt.error), v.head))
            else if attempt.NoChange? then answer == (v, Answer(Success(None), v.head))
            else answer == (Vault(v.store + [Commit(attempt.tree, TipParents(v.head))], Some(|v.store|), v.disk),
                            Answer(Success(Some(|v.store|)), v.head))
  {
    hide Try, Touched, WorktreeProblem, WellFormed;
  }

  /** Which of the checks that come before any build refuses the call. */
  lemma ChecksComeFirst(v: Vault, plan: ChangePlan)
    requires ValidVault(v)
    ensures var files, paths := FilesOf(v.store, v.head), plan.TouchedPaths();
            var problem, worktree := Problem(plan), WorktreeProblem(v, v.head, paths);
            && (problem == Some(EmptyPlan) <==> plan.changes == [])
            && (problem.None? <==> WellPosed(plan))
            && (plan.changes != [] && !NoDup(paths) ==> exists k :: RepeatsFirst(paths, k) && problem == Some(DuplicatePath(paths[k])))
            && (v.disk.index != files ==> worktree == Some(Other(StagedChanges)))
            && (v.disk.index == files && !Clean(v, paths) ==>
                  exists k :: EditedFirst(v.disk.files, files, paths, k) && worktree == Some(Other(DirtyPath(paths[k]))))
            && (Clean(v, paths) ==> worktree.None?)
  {
    hide Touched, FirstDirty, FirstRepeat;
    var files, paths := FilesOf(v.store, v.head), plan.TouchedPaths();
    var dirty := FirstDirty(v.disk.files, files, paths);
    if dirty.Some? {
      var k :| EditedFirst(v.disk.files, files, paths, k) && paths[k] == dirty.value;
      assert v.disk.index == files ==> WorktreeProblem(v, v.head, paths) == Some(Other(DirtyPath(paths[k])));
    }
  }

  lemma AloneRefused(v: Vault, plan: ChangePlan, retries: nat)
    requires ValidVault(v)
    ensures var (w, r) := ChangesetWithin(v, plan, retries, []);
            var problem, worktree := Problem(plan), WorktreeProblem(v, v.head, plan.TouchedPaths());
            var attempt := Try(TreeOf(v.store, v.head), plan);
            && (problem.Some? ==> w == v && r == Failure(Other(problem.value)))
            && (problem.None? && worktree.Some? ==> w == v && r == Failure(worktree.value))
            && (problem.None? && worktree.None? && attempt.Failed? ==> w == v && r == Failure(attempt.error))
            && (problem.None? && worktree.None? && attempt.NoChange? ==>
                  v.head.Some? && w == v && r == Success(ChangesetResult(v.head.value, [], true)))
            && (problem.None? && worktree.None? && attempt.Built? ==>
                  && w.store == v.store + [Commit(attempt.tree, TipParents(v.head))] && w.head == Some(|v.store|)
                  && r == Success(ChangesetResult(|v.store|, plan.TouchedPaths(), false)))
  {
    hide Rounds, Try, Touched, WorktreeProblem, WellFormed, Script, RunDisk, FirstRepeat;
    RoundsValid(v, plan, retries + 1, []);
    AloneRound(v, plan, retries + 1);
    TryResults(TreeOf(v.store, v.head), plan);
  }

  /** A call left alone comes to exactly what its plan, the worktree and HEAD say. */
  lemma AloneComesTo(v: Vault, plan: ChangePlan, retries: nat)
    requires ValidVault(v)
    ensures ComesTo(v, plan, ChangesetWithin(v, plan, retries, []).0, ChangesetWithin(v, plan, retries, []).1)
  {
    hide ChangesetWithin, Problem, WorktreeProblem, Try, Touched, Clean, SomeViolated, PlanEffect, LacksSource, NoDup;
    ChecksComeFirst(v, plan);
    AloneRefused(v, plan, retries);
    var files, base := FilesOf(v.store, v.head), TreeOf(v.store, v.head);
    if WellPosed(plan) && Clean(v, plan.TouchedPaths()) {
      BaseIsFiles(v.store, v.head);
      ConflictMeaning(base, plan);
      TryOutcomes(base, plan);
      AttemptMeaning(base, plan);
      if SomeViolated(files, plan) {
        Stale(base, files, plan);
      }
    } else {
      CleanIndex(v, plan.TouchedPaths());
    }
  }

  lemma CleanIndex(v: Vault, paths: seq<Path>)
    requires ValidVault(v)
    ensures Clean(v, paths) ==> v.disk.index == FilesOf(v.store, v.head)
  {
  }

  lemma Stale(base: Option<Tree>, files: Tree, plan: ChangePlan)
    requires files == BaseFiles(base) && SomeViolated(files, plan)
    ensures exists k, p :: ViolatedFirst(files, plan.preconditions, k, p)
                           && Try(base, plan) == Failed(Concurrency(StalePrecondition(p)))
  {
    hide Try, Violated;
    ConflictMeaning(base, plan);
  }

  /**
   * A call left alone that commits has overwritten no edit: nothing was staged, and what it found on
   * disk at each touched path was the old tip's file.
   */
  lemma CommitOverwritesNoEdit(v: Vault, plan: ChangePlan, retries: nat)
    requires ValidVault(v)
    ensures var (w, r) := ChangesetWithin(v, plan, retries, []);
            r.Success? && !r.value.noOp ==>
              && Clean(v, plan.TouchedPaths()) && w.disk.index == FilesOf(w.store, w.head)
              && forall p :: Lookup(w.disk.files, p) != Lookup(v.disk.files, p) ==>
                   && p in plan.TouchedPaths()
                   && Lookup(v.disk.files, p) == Lookup(FilesOf(v.store, v.head), p)
                   && Lookup(w.disk.files, p) == Lookup(FilesOf(w.store, w.head), p)
  {
    hide Try, Touched, Script, RunDisk, Rounds;
    RoundsValid(v, plan, retries + 1, []);
    FirstRoundDisk(v, plan, retries + 1);
    var (w, a) := Rounds(v, plan, retries + 1, []);
    if a.result.Success? && a.result.value.Some? {
      MaterializeShows(w.disk, w.store[a.result.value.value].tree, plan.TouchedPaths());
    }
  }

  lemma FirstRoundDisk(v: Vault, plan: ChangePlan, left: nat)
    requires ValidVault(v) && left > 0
    ensures var (w, a) := Rounds(v, plan, left, []);
            && w.disk == v.disk
            && (a.result.Success? ==> Clean(v, plan.TouchedPaths()))
  {
    hide Try, Touched, WellFormed;
  }

  lemma TryResults(base: Option<Tree>, plan: ChangePlan)
    ensures Try(base, plan).Failed? ==> Try(base, plan).error != Other(RetriesExhausted)
    ensures Try(base, plan).NoChange? ==> base.Some?
  {
  }

  /** The files of the paths a committed call reveals are the commit's, and the index is its tree. */
  lemma CommittedIsShown(v: Vault, plan: ChangePlan, retries: nat, outside: seq<OutsideMove>)
    requires ValidVault(v)
    ensures var (w, r) := ChangesetWithin(v, plan, retries, outside);
            r.Success? && !r.value.noOp ==>
              && ValidVault(w) && w.head == Some(r.value.commit)
              && w.disk.index == FilesOf(w.store, w.head)
              && r.value.paths == plan.TouchedPaths()
              && forall p :: p in plan.TouchedPaths() ==> Lookup(w.disk.files, p) == Lookup(FilesOf(w.store, w.head), p)
  {
    hide Rounds, Script, RunDisk, Touched, Try;
    RoundsValid(v, plan, retries + 1, outside);
    var (w, a) := Rounds(v, plan, retries + 1, outside);
    if a.result.Success? && a.result.value.Some? {
      MaterializeShows(w.disk, w.store[a.result.value.value].tree, plan.TouchedPaths());
    }
  }

  /** Left alone, a call leaves the branch where it was or moves it to a commit on top of it. */
  lemma AloneGoesForward(v: Vault, plan: ChangePlan, retries: nat)
    requires ValidVault(v)
    ensures var w := ChangesetWithin(v, plan, retries, []).0;
            ValidVault(w) && Extends(v.store, w.store) && Descends(w.store, v.head, w.head)
  {
    hide Rounds, Touched, Script, RunDisk, WellFormed, Ancestor;
    RoundsValid(v, plan, retries + 1, []);
    FirstRoundDecides(v, plan, retries + 1);
    var w := ChangesetWithin(v, plan, retries, []).0;
    if w.head == v.head {
      SelfDescends(w.store, w.head);
    } else if v.head.Some? {
      ParentIsAncestor(w.store, w.head.value, 0);
    }
  }

  lemma FirstRoundDecides(v: Vault, plan: ChangePlan, left: nat)
    requires ValidVault(v) && left > 0
    ensures var w := Rounds(v, plan, left, []).0;
            w.head == v.head ||
            (w.head == Some(|v.store|) && w.store == v.store + [Commit(w.store[|v.store|].tree, TipParents(v.head))])
  {
    hide Try, Touched, WorktreeProblem, WellFormed;
  }

  lemma SelfDescends(store: Store, tip: Tip)
    requires WellFormed(store) && ValidTip(store, tip)
    ensures Descends(store, tip, tip)
  {
    if tip.Some? {
      assert Ancestor(store, tip.value, tip.value);
    }
  }

  // ---------------------------------------------------------------------------------------------
  // Merging a fan-out back
  // ---------------------------------------------------------------------------------------------

  /** The advance a merge-back proposes: the commits it writes, the new tip, and the merge commit if there is one. */
  datatype Advance = Advance(added: seq<Commit>, tip: CommitId, mergeCommit: Option<CommitId>)

  /** What merging base, ours and theirs comes to: a tree, or a conflict. */
  type TreeMerge = (Tree, Tree, Tree) -> Option<Tree>

  /** What a merge-back of `wip`, forked at `fork`, proposes for the vault's branch; none if `wip` is where it began. */
  function MergeProposal(v: Vault, wip: Tip, fork: CommitId, strategy: Strategy, mergeTrees: TreeMerge)
    : Result<Option<Advance>, Error>
    requires ValidVault(v) && ValidTip(v.store, wip)
  {
    if wip.None? || v.head.None? then Failure(Other(MissingBranch))
    else if wip.value == fork then Success(None)
    else
      match strategy
      case FastForward =>
        if v.head.value != fork then Failure(Other(NotFastForward)) else Success(Some(Advance([], wip.value, None)))
      case MergeCommit =>
        if fork >= |v.store| then Failure(Other(MissingCommit))
        else
          var merged := mergeTrees(v.store[fork].tree, v.store[v.head.value].tree, v.store[wip.value].tree);
          if merged.None? then Failure(Other(MergeConflict))
          else Success(Some(Advance([Commit(merged.value, [v.head.value, wip.value])], |v.store|, Some(|v.store|))))
  }

  /**
   * A merge-back proposes nothing exactly if the fan-out made no commits; a merge commit descends
   * from both branches whatever the fork; a fast-forward descends from the branch exactly if the
   * fan-out descends from its fork.
   */
  lemma MergeMeaning(v: Vault, wip: Tip, fork: CommitId, strategy: Strategy, mergeTrees: TreeMerge)
    requires ValidVault(v) && ValidTip(v.store, wip)
    ensures var p := MergeProposal(v, wip, fork, strategy, mergeTrees);
            && (p.Success? ==> v.head.Some? && wip.Some?)
            && (p == Failure(Other(MissingBranch)) <==> wip.None? || v.head.None?)
            && (p == Success(None) <==> v.head.Some? && wip == Some(fork))
            && (v.head.Some? && wip.Some? && wip != Some(fork) ==>
                  && (strategy.FastForward? && v.head != Some(fork) ==> p == Failure(Other(NotFastForward)))
                  && (strategy.FastForward? && v.head == Some(fork) ==> p == Success(Some(Advance([], wip.value, None))))
                  && (strategy.MergeCommit? && fork >= |v.store| ==> p == Failure(Other(MissingCommit)))
                  && (strategy.MergeCommit? && fork < |v.store|
                      && mergeTrees(v.store[fork].tree, v.store[v.head.value].tree, v.store[wip.value].tree) == None ==>
                        p == Failure(Other(MergeConflict))))
            && (p.Success? && p.value.Some? ==>
                  var store' := v.store + p.value.value.added;
                  var tip := Some(p.value.value.tip);
                  && WellFormed(store') && ValidTip(store', tip) && Extends(v.store, store')
                  && Descends(store', wip, tip)
                  && (strategy.MergeCommit? ==> Descends(store', v.head, tip))
                  && (strategy.FastForward? ==> (Descends(store', v.head, tip) <==> Ancestor(v.store, fork, wip.value))))
  {
    var p := MergeProposal(v, wip, fork, strategy, mergeTrees);
    if p.Success? && p.value.Some? {
      var store' := v.store + p.value.value.added;
      if strategy.MergeCommit? {
        MergeKeepsWellFormed(v.store, p.value.value.added[0]);
        ParentIsAncestor(store', |v.store|, 0);
        ParentIsAncestor(store', |v.store|, 1);
      } else {
        assert store' == v.store;
        SelfDescends(store', wip);
      }
    }
  }

  /** A three-way merge takes over what only one side changed. */
  ghost predicate TakesChangedSide(mergeTrees: TreeMerge) {
    && (forall base, theirs :: mergeTrees(base, base, theirs) == Some(theirs))
    && (forall base, ours :: mergeTrees(base, ours, base) == Some(ours))
  }

  /**
   * The merge commit's files are what merging fork, branch and scratch branch in these roles comes
   * to: the scratch branch's files if the branch is still what was forked, and the branch's if the
   * scratch branch is. A fast-forward shows the scratch branch's files.
   */
  lemma MergeFiles(v: Vault, wip: Tip, fork: CommitId, strategy: Strategy, mergeTrees: TreeMerge)
    requires ValidVault(v) && ValidTip(v.store, wip)
    ensures var p := MergeProposal(v, wip, fork, strategy, mergeTrees);
            p.Success? && p.value.Some? ==>
              var store' := v.store + p.value.value.added;
              && wip.Some? && v.head.Some? && p.value.value.tip < |store'|
              && var files := store'[p.value.value.tip].tree;
              && var ours, theirs := v.store[v.head.value].tree, v.store[wip.value].tree;
              && (strategy.FastForward? ==> files == theirs)
              && (strategy.MergeCommit? ==>
                    && fork < |v.store| && mergeTrees(v.store[fork].tree, ours, theirs) == Some(files)
                    && (TakesChangedSide(mergeTrees) && ours == v.store[fork].tree ==> files == theirs)
                    && (TakesChangedSide(mergeTrees) && theirs == v.store[fork].tree ==> files == ours))
  {
  }

  lemma MergeKeepsWellFormed(store: Store, c: Commit)
    requires WellFormed(store) && forall k :: 0 <= k < |c.parents| ==> c.parents[k] < |store|
    ensures WellFormed(store + [c])
  {
    forall b, k | 0 <= b < |store + [c]| && 0 <= k < |(store + [c])[b].parents| ensures (store + [c])[b].parents[k] < b {
      if b < |store| {
        assert (store + [c])[b] == store[b];
      }
    }
  }
}
