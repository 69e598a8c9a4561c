/** Errors, precondition checks, and the pure part of one build attempt on a base tree. */
module Attempts {
  import opened Wrappers
  import opened Sequences
  import opened ChangePlans
  import opened ObjectStore
  import opened TreeBuilding

  /** A `Concurrency` error promises that nothing was applied; other errors do not. */
  datatype Error = Concurrency(conflict: Conflict) | Other(refusal: Refusal)

  datatype Conflict = StalePrecondition(path: Path) | RefMoved

  datatype Refusal =
    | EmptyPlan
    | DuplicatePath(path: Path)
    | StagedChanges
    | DirtyPath(path: Path)
    | MissingRenameSource(path: Path)
    | RetriesExhausted
    | UnbornBranch
    | BranchTaken
    | MissingCommit
    | MissingBranch
    | NotFastForward
    | MergeConflict
    | IoFailure

  predicate Holds(files: Tree, e: Expectation) {
    match e.precondition
    case ExpectBlob(NamesBlob(x)) => Lookup(files, e.path) == Some(x)
    case ExpectBlob(_) => false
    case ExpectAbsent => e.path !in files
    case ExpectExists => e.path in files
    case Blind => true
  }

  /** The path of the first expectation, in order, that the files do not meet. */
  function FirstStale(files: Tree, expected: seq<Expectation>): (stale: Option<Path>)
    ensures stale.None? <==> forall e :: e in expected ==> Holds(files, e)
    ensures stale.Some? ==> exists k :: FirstMismatch(files, expected, k) && expected[k].path == stale.value
  {
    if expected == [] then None
    else if !Holds(files, expected[0]) then
      assert FirstMismatch(files, expected, 0);
      Some(expected[0].path)
    else
      var rest := FirstStale(files, expected[1..]);
      assert rest.Some? ==> exists k ::
          FirstMismatch(files, expected, k) && expected[k].path == rest.value by {
        if rest.Some? {
          var k :| FirstMismatch(files, expected[1..], k) && expected[1..][k].path == rest.value;
          assert FirstMismatch(files, expected, k + 1);
        }
      }
      rest
  }

  ghost predicate FirstMismatch(files: Tree, expected: seq<Expectation>, k: int) {
    && 0 <= k < |expected|
    && !Holds(files, expected[k])
    && forall j :: 0 <= j < k ==> Holds(files, expected[j])
  }

  /** The first rename, in order, whose source the base lacks. */
  function MissingSource(base: Tree, changes: seq<Change>): (missing: Option<Path>)
    ensures missing.None? <==> Fold(base, changes).Some?
    ensures missing.None? <==> forall k :: 0 <= k < |changes| ==> !LacksSource(base, changes[k])
    ensures missing.Some? ==> exists k :: FirstLacking(base, changes, k) && changes[k].from == missing.value
  {
    if changes == [] then None
    else
      var init, last := changes[..|changes| - 1], changes[|changes| - 1];
      var earlier := MissingSource(base, init);
      if earlier.Some? then
        assert exists k :: FirstLacking(base, changes, k) && changes[k].from == earlier.value by {
          var k :| FirstLacking(base, init, k) && init[k].from == earlier.value;
          assert FirstLacking(base, changes, k);
        }
        earlier
      else if FoldChange(base, last).Some? then None
      else
        assert FirstLacking(base, changes, |changes| - 1);
        Some(last.from)
  }

  predicate LacksSource(base: Tree, c: Change) {
    c.Rename? && c.from !in base
  }

  ghost predicate FirstLacking(base: Tree, changes: seq<Change>, k: int) {
    && 0 <= k < |changes|
    && LacksSource(base, changes[k])
    && forall j :: 0 <= j < k ==> !LacksSource(base, changes[j])
  }

  datatype Attempt = Failed(error: Error) | NoChange | Built(tree: Tree)

  /** What building `plan` on a base comes to; an unborn branch has no base tree at all. */
  function Try(base: Option<Tree>, plan: ChangePlan): Attempt {
    var files := BaseFiles(base);
    var stale := FirstStale(files, plan.preconditions);
    if stale.Some? then Failed(Concurrency(StalePrecondition(stale.value)))
    else
      var missing := MissingSource(files, plan.changes);
      if missing.Some? then Failed(Other(MissingRenameSource(missing.value)))
      else
        var tree := Planned(files, plan.changes).value;
        if Some(tree) == base then NoChange else Built(tree)
  }

  /** The first path that already occurs earlier in the list. */
  function FirstRepeat(paths: seq<Path>): (repeat: Option<Path>)
    ensures repeat.None? <==> NoDup(paths)
    ensures repeat.Some? ==> exists k :: RepeatsFirst(paths, k) && paths[k] == repeat.value
  {
    if paths == [] then None
    else
      var init, last := paths[..|paths| - 1], paths[|paths| - 1];
      var earlier := FirstRepeat(init);
      assert paths == init + [last];
      if earlier.Some? then
        assert exists k :: RepeatsFirst(paths, k) && paths[k] == earlier.value by {
          var k :| RepeatsFirst(init, k) && init[k] == earlier.value;
          assert paths[..k] == init[..k];
          assert RepeatsFirst(paths, k);
        }
        earlier
      else if last in init then
        assert RepeatsFirst(paths, |paths| - 1);
        Some(last)
      else None
  }

  /** The path at `k` occurs before it, and no path before it does so. */
  ghost predicate RepeatsFirst(paths: seq<Path>, k: int) {
    0 <= k < |paths| && paths[k] in paths[..k] && NoDup(paths[..k])
  }

  /** What is wrong with a plan before any repository is looked at. */
  function Problem(plan: ChangePlan): Option<Refusal> {
    if plan.changes == [] then Some(EmptyPlan)
    else
      var repeat := FirstRepeat(plan.TouchedPaths());
      if repeat.Some? then Some(DuplicatePath(repeat.value)) else None
  }

  /** What each kind of precondition forbids the file at its path to be; `Blind` forbids nothing. */
  ghost predicate Violated(files: Tree, e: Expectation) {
    var found := Lookup(files, e.path);
    || (e.precondition == ExpectExists && found == None)
    || (e.precondition == ExpectAbsent && found.Some?)
    || (e.precondition == ExpectBlob(Malformed))
    || (e.precondition == ExpectBlob(NamesNoBlob))
    || (exists x :: e.precondition == ExpectBlob(NamesBlob(x)) && found != Some(x))
  }

  /** Expectation `k` is the first one violated, and its path is the one reported. */
  ghost predicate ViolatedFirst(files: Tree, expected: seq<Expectation>, k: int, reported: Path) {
    && 0 <= k < |expected|
    && Violated(files, expected[k]) && expected[k].path == reported
    && forall j :: 0 <= j < k ==> !Violated(files, expected[j])
  }

  lemma HoldsUnlessViolated(files: Tree, e: Expectation)
    ensures Holds(files, e) <==> !Violated(files, e)
  {
    if e.precondition.ExpectBlob? && e.precondition.token.NamesBlob? {
      assert Violated(files, e) <==> Lookup(files, e.path) != Some(e.precondition.token.content);
    }
  }

  /** An attempt is a conflict exactly if a precondition is violated, and it reports the first such. */
  lemma ConflictMeaning(base: Option<Tree>, plan: ChangePlan)
    ensures var attempt := Try(base, plan);
            var files := if base.Some? then base.value else map[];
            && ((attempt.Failed? && attempt.error.Concurrency?) <==> exists e :: e in plan.preconditions && Violated(files, e))
            && (attempt.Failed? && attempt.error.Concurrency? ==>
                  && attempt.error.conflict.StalePrecondition?
                  && exists k :: ViolatedFirst(files, plan.preconditions, k, attempt.error.conflict.path))
  {
    hide Holds, Violated;
    var files, expected := BaseFiles(base), plan.preconditions;
    forall e ensures Holds(files, e) <==> !Violated(files, e) {
      HoldsUnlessViolated(files, e);
    }
    var stale := FirstStale(files, expected);
    if stale.Some? {
      var k :| FirstMismatch(files, expected, k) && expected[k].path == stale.value;
      assert ViolatedFirst(files, expected, k, stale.value);
      assert expected[k] in expected;
    }
  }

  ghost predicate AllHold(files: Tree, plan: ChangePlan) {
    forall e :: e in plan.preconditions ==> Holds(files, e)
  }

  /**
   * An attempt reports a conflict exactly when some precondition fails, whatever tree would have
   * come out; it changes or keeps the tree only with every precondition met, and the tree it
   * builds is the plan in force on the base.
   */
  lemma AttemptMeaning(base: Option<Tree>, plan: ChangePlan)
    requires NoDup(plan.TouchedPaths())
    ensures var files := BaseFiles(base);
            && ((Try(base, plan).Failed? && Try(base, plan).error.Concurrency?) <==> !AllHold(files, plan))
            && (Try(base, plan).Built? ==>
                  && AllHold(files, plan)
                  && PlanEffect(files, plan.changes, Try(base, plan).tree)
                  && base != Some(Try(base, plan).tree))
            && (Try(base, plan).NoChange? ==>
                  && AllHold(files, plan) && base.Some?
                  && PlanEffect(files, plan.changes, base.value))
  {
    PlannedMeetsEffect(BaseFiles(base), plan.changes);
  }
}
