/** Making the working tree show a commit. */
module Materialization {
  import opened Wrappers
  import opened ChangePlans
  import opened ObjectStore

  // Each touched path is written through a temporary file and renamed into place, or deleted, and the
  // index is rewritten last.

  /** The working tree, its index, and temporary files a crash may leave behind. */
  datatype Disk = Disk(files: Tree, temps: seq<Content>, index: Tree)

  datatype DiskStep =
    | WriteTemp(content: Content)
    | RenameTemp(path: Path)
    | DeleteFile(path: Path)
    | WriteIndex(tree: Tree)

  function ApplyDiskStep(disk: Disk, step: DiskStep): Disk {
    match step
    case WriteTemp(x) => disk.(temps := disk.temps + [x])
    case RenameTemp(p) =>
      if disk.temps == [] then disk
      else Disk(disk.files[p := disk.temps[|disk.temps| - 1]], disk.temps[..|disk.temps| - 1], disk.index)
    case DeleteFile(p) => disk.(files := disk.files - {p})
    case WriteIndex(t) => disk.(index := t)
  }

  function RunDisk(disk: Disk, steps: seq<DiskStep>): Disk {
    if steps == [] then disk
    else ApplyDiskStep(RunDisk(disk, steps[..|steps| - 1]), steps[|steps| - 1])
  }

  function PathSteps(tree: Tree, path: Path): seq<DiskStep> {
    if path in tree then [WriteTemp(tree[path]), RenameTemp(path)] else [DeleteFile(path)]
  }

  function FileSteps(tree: Tree, paths: seq<Path>): seq<DiskStep> {
    if paths == [] then [] else FileSteps(tree, paths[..|paths| - 1]) + PathSteps(tree, paths[|paths| - 1])
  }

  /** Everything `materialize` does to the disk, in order. */
  function Script(tree: Tree, paths: seq<Path>): seq<DiskStep> {
    FileSteps(tree, paths) + [WriteIndex(tree)]
  }

  /** `shown` is `files` with exactly the listed paths replaced by what `tree` has there. */
  ghost predicate Shows(files: Tree, tree: Tree, paths: seq<Path>, shown: Tree) {
    && (forall p :: p in paths ==> Lookup(shown, p) == Lookup(tree, p))
    && (forall p :: p !in paths ==> Lookup(shown, p) == Lookup(files, p))
  }

  /** The index is the tree, and every file of the tree is on disk with the tree's bytes. */
  ghost predicate Coherent(disk: Disk, tree: Tree) {
    disk.index == tree && forall p :: p in tree ==> Lookup(disk.files, p) == Some(tree[p])
  }

  lemma {:induction false} RunConcat(disk: Disk, a: seq<DiskStep>, b: seq<DiskStep>)
    ensures RunDisk(disk, a + b) == RunDisk(RunDisk(disk, a), b)
  {
    if b == [] {
      assert a + b == a;
    } else {
      assert (a + b)[..|a + b| - 1] == a + b[..|b| - 1];
      RunConcat(disk, a, b[..|b| - 1]);
    }
  }

  lemma PathStepsShow(disk: Disk, tree: Tree, path: Path)
    ensures var after := RunDisk(disk, PathSteps(tree, path));
            && Shows(disk.files, tree, [path], after.files)
            && after.temps == disk.temps && after.index == disk.index
  {
    if path in tree {
      var steps := PathSteps(tree, path);
      assert steps[..1] == [WriteTemp(tree[path])];
      assert RunDisk(disk, steps[..1]) == ApplyDiskStep(disk, steps[0]);
    } else {
      assert RunDisk(disk, [DeleteFile(path)]) == ApplyDiskStep(disk, DeleteFile(path));
    }
  }

  lemma {:induction false} FileStepsShow(disk: Disk, tree: Tree, paths: seq<Path>)
    ensures var after := RunDisk(disk, FileSteps(tree, paths));
            && Shows(disk.files, tree, paths, after.files)
            && after.temps == disk.temps && after.index == disk.index
  {
    if paths != [] {
      var init, last := paths[..|paths| - 1], paths[|paths| - 1];
      assert paths == init + [last];
      FileStepsShow(disk, tree, init);
      RunConcat(disk, FileSteps(tree, init), PathSteps(tree, last));
      PathStepsShow(RunDisk(disk, FileSteps(tree, init)), tree, last);
    }
  }

  /** Run to its end, `materialize` shows exactly the listed paths and syncs the index. */
  lemma MaterializeShows(disk: Disk, tree: Tree, paths: seq<Path>)
    ensures var after := RunDisk(disk, Script(tree, paths));
            && Shows(disk.files, tree, paths, after.files)
            && after.temps == disk.temps && after.index == tree
  {
    FileStepsShow(disk, tree, paths);
    RunConcat(disk, FileSteps(tree, paths), [WriteIndex(tree)]);
    assert RunDisk(RunDisk(disk, FileSteps(tree, paths)), [WriteIndex(tree)])
        == ApplyDiskStep(RunDisk(disk, FileSteps(tree, paths)), WriteIndex(tree));
  }

  lemma ShowsUnique(files: Tree, tree: Tree, paths: seq<Path>, a: Tree, b: Tree)
    requires Shows(files, tree, paths, a) && Shows(files, tree, paths, b)
    ensures a == b
  {
    forall p ensures p in a <==> p in b {
      assert Lookup(a, p) == Lookup(b, p) by { if p in paths {} }
    }
    forall p | p in a ensures a[p] == b[p] {
      assert Lookup(a, p) == Lookup(b, p) by { if p in paths {} }
    }
  }

  // ---------------------------------------------------------------------------------------------
  // Interruption and resync
  // ---------------------------------------------------------------------------------------------

  ghost predicate AgreeOff(a: Tree, b: Tree, paths: seq<Path>) {
    forall p :: p !in paths ==> Lookup(a, p) == Lookup(b, p)
  }

  lemma {:induction false} FileStepTargets(tree: Tree, paths: seq<Path>, k: nat)
    requires k < |FileSteps(tree, paths)|
    ensures var step := FileSteps(tree, paths)[k];
            && !step.WriteIndex?
            && (step.RenameTemp? || step.DeleteFile? ==> step.path in paths)
  {
    var init := paths[..|paths| - 1];
    if k < |FileSteps(tree, init)| {
      FileStepTargets(tree, init, k);
    }
  }

  /** However far it gets, `materialize` writes no path it was not given. */
  lemma {:induction false} PrefixAgreesOff(disk: Disk, tree: Tree, paths: seq<Path>, k: nat)
    requires k <= |Script(tree, paths)|
    ensures AgreeOff(RunDisk(disk, Script(tree, paths)[..k]).files, disk.files, paths)
    ensures k < |Script(tree, paths)| ==> RunDisk(disk, Script(tree, paths)[..k]).index == disk.index
  {
    if k > 0 {
      var steps := Script(tree, paths);
      assert steps[..k][..k - 1] == steps[..k - 1];
      PrefixAgreesOff(disk, tree, paths, k - 1);
      if k - 1 < |FileSteps(tree, paths)| {
        FileStepTargets(tree, paths, k - 1);
      }
    }
  }

  /** The disk after a series of runs that each stop somewhere, the first run starting from `disk`. */
  ghost function Interrupted(disk: Disk, tree: Tree, paths: seq<Path>, stops: seq<nat>): Disk
    requires forall i :: 0 <= i < |stops| ==> stops[i] <= |Script(tree, paths)|
  {
    if stops == [] then disk
    else RunDisk(Interrupted(disk, tree, paths, stops[..|stops| - 1]), Script(tree, paths)[..stops[|stops| - 1]])
  }

  /**
   * Crash recovery: stop `materialize` after any prefix of its steps, as often as you like; one
   * full run over the same paths then leaves the working tree and the index exactly as a single
   * uninterrupted run would have. With a run that completed this is idempotence.
   */
  lemma ResyncRecovers(disk: Disk, tree: Tree, paths: seq<Path>, stops: seq<nat>)
    requires forall i :: 0 <= i < |stops| ==> stops[i] <= |Script(tree, paths)|
    ensures var recovered := RunDisk(Interrupted(disk, tree, paths, stops), Script(tree, paths));
            var straight := RunDisk(disk, Script(tree, paths));
            recovered.files == straight.files && recovered.index == straight.index
  {
    var broken := Interrupted(disk, tree, paths, stops);
    InterruptedAgreesOff(disk, tree, paths, stops);
    MaterializeShows(broken, tree, paths);
    MaterializeShows(disk, tree, paths);
    ShowsUnique(disk.files, tree, paths, RunDisk(broken, Script(tree, paths)).files,
                RunDisk(disk, Script(tree, paths)).files);
  }

  lemma {:induction false} InterruptedAgreesOff(disk: Disk, tree: Tree, paths: seq<Path>, stops: seq<nat>)
    requires forall i :: 0 <= i < |stops| ==> stops[i] <= |Script(tree, paths)|
    ensures AgreeOff(Interrupted(disk, tree, paths, stops).files, disk.files, paths)
  {
    if stops != [] {
      var init := stops[..|stops| - 1];
      InterruptedAgreesOff(disk, tree, paths, init);
      PrefixAgreesOff(Interrupted(disk, tree, paths, init), tree, paths, stops[|stops| - 1]);
    }
  }

  /** A second run finds nothing to do. */
  lemma MaterializeIdempotent(disk: Disk, tree: Tree, paths: seq<Path>)
    ensures var once := RunDisk(disk, Script(tree, paths));
            RunDisk(once, Script(tree, paths)) == once
  {
    var all := |Script(tree, paths)|;
    var once := RunDisk(disk, Script(tree, paths));
    assert Script(tree, paths)[..all] == Script(tree, paths);
    assert Interrupted(disk, tree, paths, [all]) == once by {
      assert [all][..0] == [];
      assert Interrupted(disk, tree, paths, []) == disk;
    }
    ResyncRecovers(disk, tree, paths, [all]);
    MaterializeShows(disk, tree, paths);
    MaterializeShows(once, tree, paths);
  }

  /** Showing every path where two trees differ carries a coherent disk from one to the other. */
  lemma MaterializeKeepsCoherence(disk: Disk, base: Tree, tree: Tree, paths: seq<Path>)
    requires Coherent(disk, base) && AgreeOff(tree, base, paths)
    ensures Coherent(RunDisk(disk, Script(tree, paths)), tree)
  {
    MaterializeShows(disk, tree, paths);
    var after := RunDisk(disk, Script(tree, paths));
    forall p | p in tree ensures Lookup(after.files, p) == Some(tree[p]) {
      if p in paths {
        assert Lookup(tree, p) == Some(tree[p]);
      } else {
        assert Lookup(tree, p) == Lookup(base, p);
        assert p in base;
      }
    }
  }
}
