/** Walking a branch along first parents, and replaying what each commit changed. */
module FirstParents {
  import opened Wrappers
  import opened ChangePlans
  import opened ObjectStore
  import opened TreeBuilding

  /** The first parent of a commit; a root commit has none. */
  function FirstParent(store: Store, c: CommitId): Tip
    requires c < |store|
  {
    if store[c].parents == [] then None else Some(store[c].parents[0])
  }

  /** `stop` is reached from `tip` along first parents alone. */
  ghost predicate OnChain(store: Store, stop: CommitId, tip: CommitId)
    requires WellFormed(store) && tip < |store|
    decreases tip
  {
    stop == tip || (FirstParent(store, tip).Some? && OnChain(store, stop, FirstParent(store, tip).value))
  }

  /** Oldest first: each commit's first parent is the one before it, the oldest one's is `below`. */
  ghost predicate Linked(store: Store, below: Tip, range: seq<CommitId>) {
    && (forall i :: 0 <= i < |range| ==> range[i] < |store|)
    && (forall i :: 0 < i < |range| ==> FirstParent(store, range[i]) == Some(range[i - 1]))
    && (range != [] ==> FirstParent(store, range[0]) == below)
  }

  /** The contiguous first-parent range above `stop`, up to and including `tip`. */
  ghost predicate IsRange(store: Store, stop: Tip, tip: CommitId, range: seq<CommitId>) {
    && Linked(store, stop, range)
    && (stop.Some? ==> stop.value !in range)
    && (if range == [] then stop == Some(tip) else range[|range| - 1] == tip)
  }

  /** Whether a range is one commit long shows in the first parent of its tip. */
  lemma LastLink(store: Store, stop: Tip, tip: CommitId, range: seq<CommitId>)
    requires IsRange(store, stop, tip, range) && range != []
    ensures tip < |store|
    ensures |range| == 1 <==> FirstParent(store, tip) == stop
    ensures |range| > 1 ==> FirstParent(store, tip) == Some(range[|range| - 2])
    ensures stop != Some(tip)
  {
    assert range[|range| - 1] in range;
    if |range| > 1 {
      assert range[|range| - 2] in range;
    }
  }

  /** There is at most one such range. */
  lemma {:induction false} RangeUnique(store: Store, stop: Tip, tip: CommitId, a: seq<CommitId>, b: seq<CommitId>)
    requires WellFormed(store) && tip < |store| && IsRange(store, stop, tip, a) && IsRange(store, stop, tip, b)
    ensures a == b
    decreases tip
  {
    if a != [] {
      LastLink(store, stop, tip, a);
    }
    if b != [] {
      LastLink(store, stop, tip, b);
    }
    if |a| > 1 {
      assert a == a[..|a| - 1] + [tip] && b == b[..|b| - 1] + [tip];
      RangeUnique(store, stop, a[|a| - 2], a[..|a| - 1], b[..|b| - 1]);
    }
  }

  // ---------------------------------------------------------------------------------------------
  // Replaying diffs
  // ---------------------------------------------------------------------------------------------

  datatype PathChange = Added | Modified | Deleted

  /** What happened to a path that differs between two trees. */
  function ChangeOf(a: Tree, b: Tree, p: Path): PathChange
    requires Lookup(a, p) != Lookup(b, p)
  {
    if p !in b then Deleted else if p in a then Modified else Added
  }

  /** The kind of change, told by which of the two trees have a file there. */
  ghost predicate KindIs(a: Tree, b: Tree, p: Path, change: PathChange) {
    match change
    case Added => Lookup(a, p) == None && Lookup(b, p).Some?
    case Modified => Lookup(a, p).Some? && Lookup(b, p).Some? && Lookup(a, p) != Lookup(b, p)
    case Deleted => Lookup(a, p).Some? && Lookup(b, p) == None
  }

  /** A diff lists each path that differs once, with what happened to it. */
  ghost predicate IsDiff(a: Tree, b: Tree, diff: seq<(Path, PathChange)>) {
    && (forall i, j :: 0 <= i < j < |diff| ==> diff[i].0 != diff[j].0)
    && (forall i :: 0 <= i < |diff| ==>
          Lookup(a, diff[i].0) != Lookup(b, diff[i].0) && KindIs(a, b, diff[i].0, diff[i].1))
    && (forall p :: Lookup(a, p) != Lookup(b, p) ==> exists i :: 0 <= i < |diff| && diff[i].0 == p)
  }

  /** Bring a path map up to date with a diff: drop what was deleted, read the rest off the commit. */
  function Replay(files: Tree, tree: Tree, diff: seq<(Path, PathChange)>): Tree {
    if diff == [] then files
    else
      var before := Replay(files, tree, diff[..|diff| - 1]);
      var (p, change) := diff[|diff| - 1];
      if change.Deleted? || p !in tree then before - {p} else before[p := tree[p]]
  }

  lemma {:induction false} ReplayPointwise(files: Tree, tree: Tree, diff: seq<(Path, PathChange)>, p: Path)
    requires forall i :: 0 <= i < |diff| ==> (diff[i].1.Deleted? <==> diff[i].0 !in tree)
    ensures Lookup(Replay(files, tree, diff), p)
         == if exists i :: 0 <= i < |diff| && diff[i].0 == p then Lookup(tree, p) else Lookup(files, p)
  {
    if diff != [] {
      var init := diff[..|diff| - 1];
      ReplayPointwise(files, tree, init, p);
      if diff[|diff| - 1].0 != p && exists i :: 0 <= i < |diff| && diff[i].0 == p {
        var i :| 0 <= i < |diff| && diff[i].0 == p;
        assert init[i].0 == p;
      }
    }
  }

  /** Replaying a commit's diff on its first parent's files gives the commit's files. */
  lemma ReplayOne(a: Tree, b: Tree, diff: seq<(Path, PathChange)>)
    requires IsDiff(a, b, diff)
    ensures Replay(a, b, diff) == b
  {
    forall p ensures Lookup(Replay(a, b, diff), p) == Lookup(b, p) {
      ReplayPointwise(a, b, diff, p);
    }
    SameLookups(Replay(a, b, diff), b);
  }

  /** Replay a whole range, each commit's diff in turn. */
  function ReplayRange(store: Store, files: Tree, range: seq<CommitId>, diffs: seq<seq<(Path, PathChange)>>): Tree
    requires |diffs| == |range| && forall i :: 0 <= i < |range| ==> range[i] < |store|
  {
    if range == [] then files
    else
      Replay(ReplayRange(store, files, range[..|range| - 1], diffs[..|diffs| - 1]),
             store[range[|range| - 1]].tree, diffs[|diffs| - 1])
  }

  /**
   * Replaying each commit's diff against its first parent along a first-parent range turns the
   * files of `stop` into those of `tip`: no path that differs is skipped.
   */
  lemma {:induction false} ReplayReachesTip(store: Store, stop: Tip, range: seq<CommitId>, diffs: seq<seq<(Path, PathChange)>>)
    requires ValidTip(store, stop) && Linked(store, stop, range) && |diffs| == |range|
    requires forall i :: 0 <= i < |range| ==> ValidTip(store, FirstParent(store, range[i]))
    requires forall i :: 0 <= i < |range| ==>
               IsDiff(FilesOf(store, FirstParent(store, range[i])), store[range[i]].tree, diffs[i])
    ensures ReplayRange(store, FilesOf(store, stop), range, diffs)
         == if range == [] then FilesOf(store, stop) else store[range[|range| - 1]].tree
  {
    hide IsDiff, Replay, ValidTip;
    if range != [] {
      var n := |range| - 1;
      var init := range[..n];
      assert forall i :: 0 <= i < n ==> init[i] == range[i] && diffs[..n][i] == diffs[i];
      ReplayReachesTip(store, stop, init, diffs[..n]);
      assert IsDiff(FilesOf(store, FirstParent(store, range[n])), store[range[n]].tree, diffs[n]);
      if n > 0 {
        assert FirstParent(store, range[n]) == Some(range[n - 1]);
      }
      ReplayOne(FilesOf(store, FirstParent(store, range[n])), store[range[n]].tree, diffs[n]);
    }
  }

  /** So a path that differs between the ends appears in some commit's diff. */
  lemma NoDifferenceSkipped(store: Store, stop: Tip, range: seq<CommitId>, diffs: seq<seq<(Path, PathChange)>>, p: Path)
    requires ValidTip(store, stop) && Linked(store, stop, range) && |diffs| == |range| && range != []
    requires forall i :: 0 <= i < |range| ==> ValidTip(store, FirstParent(store, range[i]))
    requires forall i :: 0 <= i < |range| ==>
               IsDiff(FilesOf(store, FirstParent(store, range[i])), store[range[i]].tree, diffs[i])
    requires Lookup(FilesOf(store, stop), p) != Lookup(store[range[|range| - 1]].tree, p)
    ensures exists i, j :: 0 <= i < |diffs| && 0 <= j < |diffs[i]| && diffs[i][j].0 == p
  {
    var n := |range| - 1;
    var base := FilesOf(store, FirstParent(store, range[n]));
    assert IsDiff(base, store[range[n]].tree, diffs[n]);
    if Lookup(base, p) != Lookup(store[range[n]].tree, p) {
      var j :| 0 <= j < |diffs[n]| && diffs[n][j].0 == p;
    } else {
      assert n > 0;
      assert FirstParent(store, range[n]) == Some(range[n - 1]);
      var init := range[..n];
      assert forall i :: 0 <= i < n ==> init[i] == range[i] && diffs[..n][i] == diffs[i];
      NoDifferenceSkipped(store, stop, init, diffs[..n], p);
      var i, j :| 0 <= i < n && 0 <= j < |diffs[..n][i]| && diffs[..n][i][j].0 == p;
      assert diffs[i][j].0 == p;
    }
  }
}
