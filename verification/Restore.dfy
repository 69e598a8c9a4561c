/** Rolling paths back: the plan that restores them, and what committing it does. */
module Restore {
  import opened Wrappers
  import opened Sequences
  import opened ChangePlans
  import opened ObjectStore
  import opened TreeBuilding
  import opened Attempts
  import opened Materialization
  import opened VaultSpec
  import opened WriteProtocol
  import opened AtomicWrites

  /** One path brought to its target state, guarded by the blob it holds now. */
  function RestorePath(plan: ChangePlan, current: Tree, target: Tree, p: Path): ChangePlan {
    match (Lookup(current, p), Lookup(target, p))
    case (Some(c), Some(t)) => if c == t then plan else plan.Update(p, t, NamesBlob(c))
    case (Some(c), None) => plan.Delete(p, NamesBlob(c))
    case (None, Some(t)) => plan.Create(p, t)
    case (None, None) => plan
  }

  function RestorePlan(current: Tree, target: Tree, paths: seq<Path>): ChangePlan {
    if paths == [] then EMPTY_PLAN
    else RestorePath(RestorePlan(current, target, paths[..|paths| - 1]), current, target, paths[|paths| - 1])
  }

  ghost predicate Differs(current: Tree, target: Tree, p: Path) {
    Lookup(current, p) != Lookup(target, p)
  }

  lemma RestorePathTouches(plan: ChangePlan, current: Tree, target: Tree, p: Path)
    ensures RestorePath(plan, current, target, p).TouchedPaths()
         == plan.TouchedPaths() + (if Lookup(current, p) != Lookup(target, p) then [p] else [])
  {
    var after := RestorePath(plan, current, target, p);
    if Differs(current, target, p) {
      assert after.changes[..|after.changes| - 1] == plan.changes;
    }
  }

  /** The plan mutates exactly the listed paths that differ, each once if it is listed once. */
  lemma {:induction false} RestoreTouches(current: Tree, target: Tree, paths: seq<Path>)
    ensures var touched := RestorePlan(current, target, paths).TouchedPaths();
            && (forall p :: p in touched <==> p in paths && Differs(current, target, p))
            && (NoDup(paths) ==> NoDup(touched))
  {
    hide RestorePath;
    if paths != [] {
      var init, p := paths[..|paths| - 1], paths[|paths| - 1];
      assert paths == init + [p];
      RestoreTouches(current, target, init);
      var before := RestorePlan(current, target, init).TouchedPaths();
      RestorePathTouches(RestorePlan(current, target, init), current, target, p);
      if NoDup(paths) {
        NoDupSplit(init, [p]);
        assert p in [p];
        NoDupConcat(before, [p]);
        assert before + [] == before;
      }
    }
  }

  /** A base meets the plan's preconditions exactly when no path the plan changes has moved on. */
  lemma {:induction false} RestoreGuards(current: Tree, target: Tree, paths: seq<Path>, base: Tree)
    ensures AllHold(base, RestorePlan(current, target, paths)) <==>
            forall p :: p in paths && Differs(current, target, p) ==> Lookup(base, p) == Lookup(current, p)
  {
    if paths != [] {
      var init, p := paths[..|paths| - 1], paths[|paths| - 1];
      assert paths == init + [p];
      RestoreGuards(current, target, init, base);
      var before, after := RestorePlan(current, target, init), RestorePlan(current, target, paths);
      if Differs(current, target, p) {
        var e := after.preconditions[|after.preconditions| - 1];
        assert after.preconditions == before.preconditions + [e];
        assert Holds(base, e) <==> Lookup(base, p) == Lookup(current, p);
        assert e in after.preconditions;
        assert forall d :: d in before.preconditions ==> d in after.preconditions;
      } else {
        assert after == before;
      }
    }
  }

  /** Each change of the plan gives one path its target state. */
  lemma {:induction false} RestoreInForce(current: Tree, target: Tree, paths: seq<Path>, base: Tree, tree: Tree)
    ensures (forall c :: c in RestorePlan(current, target, paths).changes ==> ChangeInForce(base, c, tree)) <==>
            forall p :: p in paths && Differs(current, target, p) ==> Lookup(tree, p) == Lookup(target, p)
  {
    if paths != [] {
      var init, p := paths[..|paths| - 1], paths[|paths| - 1];
      assert paths == init + [p];
      RestoreInForce(current, target, init, base, tree);
      var before, after := RestorePlan(current, target, init), RestorePlan(current, target, paths);
      if Differs(current, target, p) {
        var c := after.changes[|after.changes| - 1];
        assert after.changes == before.changes + [c];
        assert ChangeInForce(base, c, tree) <==> Lookup(tree, p) == Lookup(target, p);
        assert c in after.changes;
        assert forall d :: d in before.changes ==> d in after.changes;
      } else {
        assert after == before;
      }
    }
  }

  /**
   * The restore plan built on a tree is empty exactly when every listed path is at its target
   * already; otherwise building it on that tree sets exactly those paths and no others.
   */
  lemma RestoreRoundTrip(current: Tree, target: Tree, paths: seq<Path>)
    requires NoDup(paths)
    ensures var plan := RestorePlan(current, target, paths);
            && (plan.changes == [] <==> forall p :: p in paths ==> Lookup(current, p) == Lookup(target, p))
            && (plan.changes != [] ==>
                  && Problem(plan).None?
                  && Try(Some(current), plan).Built?
                  && Shows(current, target, paths, Try(Some(current), plan).tree))
  {
    hide Try, RestorePlan, PlanEffect;
    var plan := RestorePlan(current, target, paths);
    RestoreTouches(current, target, paths);
    if plan.changes == [] {
      forall p | p in paths ensures Lookup(current, p) == Lookup(target, p) {
        assert p !in plan.TouchedPaths();
      }
    } else {
      var c := plan.changes[|plan.changes| - 1];
      TouchesSomething(c);
      var q :| q in c.TouchedPaths();
      TouchesAll(plan.changes, c, q);
      assert q in paths && Differs(current, target, q);
      RestoreGuards(current, target, paths, current);
      NoRenames(current, target, paths);
      AttemptMeaning(Some(current), plan);
      BuildsSomething(current, target, paths, q);
    }
  }

  lemma TouchesSomething(c: Change)
    ensures exists p :: p in c.TouchedPaths()
  {
    assert c.TouchedPaths()[0] in c.TouchedPaths();
  }

  lemma {:induction false} NoRenames(current: Tree, target: Tree, paths: seq<Path>)
    ensures forall c :: c in RestorePlan(current, target, paths).changes ==> !c.Rename?
  {
    if paths != [] {
      NoRenames(current, target, paths[..|paths| - 1]);
    }
  }

  lemma BuildsSomething(current: Tree, target: Tree, paths: seq<Path>, q: Path)
    requires NoDup(paths) && q in paths && Differs(current, target, q)
    requires AllHold(current, RestorePlan(current, target, paths))
    ensures var plan := RestorePlan(current, target, paths);
            && Try(Some(current), plan).Built?
            && Shows(current, target, paths, Try(Some(current), plan).tree)
  {
    hide RestorePlan;
    var plan := RestorePlan(current, target, paths);
    RestoreTouches(current, target, paths);
    NoRenames(current, target, paths);
    PlannedMeetsEffect(current, plan.changes);
    var tree := Planned(current, plan.changes).value;
    RestoreInForce(current, target, paths, current, tree);
    assert Lookup(tree, q) == Lookup(target, q);
    forall p | p in paths ensures Lookup(tree, p) == Lookup(target, p) {
      if !Differs(current, target, p) {
        assert p !in Touched(plan.changes);
      }
    }
    forall p | p !in paths ensures Lookup(tree, p) == Lookup(current, p) {
      assert p !in Touched(plan.changes);
    }
  }

  /** Restoring every path that differs gives the whole target tree back. */
  lemma RestoringTheDiffUndoes(parent: Tree, head: Tree, paths: seq<Path>)
    requires ListsDiff(paths, parent, head) && paths != []
    ensures Try(Some(head), RestorePlan(head, parent, paths)) == Built(parent)
  {
    hide Try, RestorePlan;
    RestoreRoundTrip(head, parent, paths);
    assert paths[0] in paths;
    var tree := Try(Some(head), RestorePlan(head, parent, paths)).tree;
    forall p ensures Lookup(tree, p) == Lookup(parent, p) {
      if p in paths {
      } else {
        assert Lookup(tree, p) == Lookup(head, p);
      }
    }
    SameLookups(tree, parent);
  }

  /** Some path the plan changes has moved on since the plan was made. */
  ghost predicate ChangedSince(current: Tree, target: Tree, paths: seq<Path>, now: Tree) {
    exists p :: p in paths && Differs(current, target, p) && Lookup(now, p) != Lookup(current, p)
  }

  /** A build attempt is a conflict exactly if a path the plan changes has moved on. */
  lemma AttemptAbortsOnLaterChange(current: Tree, target: Tree, paths: seq<Path>, base: Option<Tree>)
    requires NoDup(paths)
    ensures var attempt := Try(base, RestorePlan(current, target, paths));
            (attempt.Failed? && attempt.error.Concurrency?) <==> ChangedSince(current, target, paths, BaseFiles(base))
  {
    hide Try, RestorePlan;
    RestoreTouches(current, target, paths);
    RestoreGuards(current, target, paths, BaseFiles(base));
    AttemptMeaning(base, RestorePlan(current, target, paths));
  }

  /**
   * Committing a restore plan later. On a worktree that passes the checks, a path of the plan that
   * has changed since ends the call in a conflict, whatever others do meanwhile, and branch, index
   * and files stay as they were. Left alone, the call ends in a conflict only then: changes
   * elsewhere do not stop it.
   */
  lemma RestoreAbortsOnLaterChange(v: Vault, current: Tree, target: Tree, paths: seq<Path>, retries: nat,
                                   outside: seq<OutsideMove>)
    requires ValidVault(v) && NoDup(paths) && RestorePlan(current, target, paths).changes != []
    ensures var plan := RestorePlan(current, target, paths);
            var (w, r) := ChangesetWithin(v, plan, retries, outside);
            var clean := WorktreeProblem(v, v.head, plan.TouchedPaths()).None?;
            var stale := ChangedSince(current, target, paths, FilesOf(v.store, v.head));
            && (clean && stale ==> r.Failure? && r.error.Concurrency? && w.head == v.head && w.disk == v.disk)
            && (outside == [] ==> ((r.Failure? && r.error.Concurrency?) <==> clean && stale))
  {
    hide Try, RestorePlan, Touched, WorktreeProblem, ChangedSince;
    var plan := RestorePlan(current, target, paths);
    RestoreTouches(current, target, paths);
    BaseIsFiles(v.store, v.head);
    AttemptAbortsOnLaterChange(current, target, paths, TreeOf(v.store, v.head));
    ProblemIsNoConflict(v, v.head, plan.TouchedPaths());
    RoundsValid(v, plan, retries + 1, outside);
  }

  /** Through the whole pipeline: on a clean worktree the restore commits and shows its result. */
  lemma RestoreCommits(v: Vault, target: Tree, paths: seq<Path>)
    requires ValidVault(v) && v.head.Some? && NoDup(paths)
    requires var plan := RestorePlan(FilesOf(v.store, v.head), target, paths);
             plan.changes != [] && WorktreeProblem(v, v.head, plan.TouchedPaths()).None?
    ensures var plan := RestorePlan(FilesOf(v.store, v.head), target, paths);
            var (w, r) := ChangesetOn(v, plan, []);
            && r.Success? && !r.value.noOp && ValidVault(w) && w.head == Some(r.value.commit)
            && Shows(FilesOf(v.store, v.head), target, paths, FilesOf(w.store, w.head))
  {
    hide Try, RestorePlan, Touched;
    var plan := RestorePlan(FilesOf(v.store, v.head), target, paths);
    RestoreRoundTrip(FilesOf(v.store, v.head), target, paths);
    RoundsValid(v, plan, DEFAULT_MAX_RETRIES + 1, []);
    var tree := Try(TreeOf(v.store, v.head), plan).tree;
    assert TreeOf(v.store, v.head) == Some(FilesOf(v.store, v.head));
    AddedCommitOk(v, tree);
  }
}
