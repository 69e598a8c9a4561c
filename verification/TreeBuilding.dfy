/** Turning a plan into a tree. */
module TreeBuilding {
  import opened Wrappers
  import opened Sequences
  import opened ChangePlans
  import opened ObjectStore

  // Renames are folded off the base tree; the resulting upserts and removals are applied one after
  // another to an isolated copy of it.

  datatype TreeChange = Put(path: Path, content: Content) | Drop(path: Path)

  function BaseFiles(base: Option<Tree>): Tree {
    if base.Some? then base.value else map[]
  }

  /** The tree changes one change stands for; `None` when a rename has no source. */
  function FoldChange(base: Tree, change: Change): Option<seq<TreeChange>> {
    match change
    case Upsert(p, x) => Some([Put(p, x)])
    case Remove(p) => Some([Drop(p)])
    case Rename(f, t) => if f in base then Some([Drop(f), Put(t, base[f])]) else None
  }

  /** All tree changes of a plan; `None` when some rename has no source in the base. */
  function Fold(base: Tree, changes: seq<Change>): Option<seq<TreeChange>> {
    if changes == [] then Some([])
    else
      var before := Fold(base, changes[..|changes| - 1]);
      var last := FoldChange(base, changes[|changes| - 1]);
      if before.Some? && last.Some? then Some(before.value + last.value) else None
  }

  function ApplyTreeChange(tree: Tree, change: TreeChange): Tree {
    match change
    case Put(p, x) => tree[p := x]
    case Drop(p) => tree - {p}
  }

  function ApplyTreeChanges(tree: Tree, changes: seq<TreeChange>): Tree {
    if changes == [] then tree
    else ApplyTreeChange(ApplyTreeChanges(tree, changes[..|changes| - 1]), changes[|changes| - 1])
  }

  /** Fold, then build: what a plan makes of a base tree. */
  function Planned(base: Tree, changes: seq<Change>): Option<Tree> {
    var folded := Fold(base, changes);
    if folded.Some? then Some(ApplyTreeChanges(base, folded.value)) else None
  }

  // ---------------------------------------------------------------------------------------------
  // What a plan means, path by path, without any order
  // ---------------------------------------------------------------------------------------------

  /** `tree` is the base with every change of the plan in force and every other path untouched. */
  ghost predicate PlanEffect(base: Tree, changes: seq<Change>, tree: Tree) {
    && (forall c :: c in changes ==> ChangeInForce(base, c, tree))
    && (forall p :: p !in Touched(changes) ==> Lookup(tree, p) == Lookup(base, p))
  }

  ghost predicate ChangeInForce(base: Tree, change: Change, tree: Tree) {
    match change
    case Upsert(p, x) => Lookup(tree, p) == Some(x)
    case Remove(p) => Lookup(tree, p) == None
    case Rename(f, t) => f in base && Lookup(tree, f) == None && Lookup(tree, t) == Some(base[f])
  }

  /** A plan has at most one effect on a base tree. */
  lemma PlanEffectUnique(base: Tree, changes: seq<Change>, t: Tree, u: Tree)
    requires PlanEffect(base, changes, t) && PlanEffect(base, changes, u)
    ensures t == u
  {
    forall p ensures Lookup(t, p) == Lookup(u, p) {
      if p in Touched(changes) {
        var c := TouchedBy(changes, p);
        assert ChangeInForce(base, c, t) && ChangeInForce(base, c, u);
      }
    }
    SameLookups(t, u);
  }

  lemma SameLookups(t: Tree, u: Tree)
    requires forall p :: Lookup(t, p) == Lookup(u, p)
    ensures t == u
  {
    forall p ensures p in t <==> p in u {
      assert Lookup(t, p) == Lookup(u, p);
    }
    forall p | p in t ensures t[p] == u[p] {
      assert Lookup(t, p) == Lookup(u, p);
    }
  }

  lemma {:induction false} TouchedBy(changes: seq<Change>, p: Path) returns (c: Change)
    requires p in Touched(changes)
    ensures c in changes && p in c.TouchedPaths()
  {
    var last := changes[|changes| - 1];
    if p in last.TouchedPaths() {
      c := last;
    } else {
      c := TouchedBy(changes[..|changes| - 1], p);
    }
  }

  lemma {:induction false} TouchesAll(changes: seq<Change>, c: Change, p: Path)
    requires c in changes && p in c.TouchedPaths()
    ensures p in Touched(changes)
  {
    var last := changes[|changes| - 1];
    if c != last {
      assert c in changes[..|changes| - 1];
      TouchesAll(changes[..|changes| - 1], c, p);
    }
  }

  /** A plan without repeated paths splits into one without them and a last change apart from it. */
  lemma TouchedSplit(changes: seq<Change>)
    requires changes != [] && NoDup(Touched(changes))
    ensures NoDup(Touched(changes[..|changes| - 1]))
    ensures NoDup(changes[|changes| - 1].TouchedPaths())
    ensures Disjoint(Touched(changes[..|changes| - 1]), changes[|changes| - 1].TouchedPaths())
  {
    NoDupSplit(Touched(changes[..|changes| - 1]), changes[|changes| - 1].TouchedPaths());
  }

  lemma {:induction false} ApplyConcat(tree: Tree, a: seq<TreeChange>, b: seq<TreeChange>)
    ensures ApplyTreeChanges(tree, a + b) == ApplyTreeChanges(ApplyTreeChanges(tree, a), b)
  {
    if b == [] {
      assert a + b == a;
    } else {
      assert (a + b)[..|a + b| - 1] == a + b[..|b| - 1];
      ApplyConcat(tree, a, b[..|b| - 1]);
    }
  }

  /** Building fails exactly on a missing rename source, and otherwise puts the plan in force. */
  lemma {:induction false} PlannedMeetsEffect(base: Tree, changes: seq<Change>)
    requires NoDup(Touched(changes))
    ensures Planned(base, changes).Some? <==> forall c :: c in changes && c.Rename? ==> c.from in base
    ensures Planned(base, changes).Some? ==> PlanEffect(base, changes, Planned(base, changes).value)
  {
    if changes != [] {
      var init, last := changes[..|changes| - 1], changes[|changes| - 1];
      assert changes == init + [last];
      TouchedSplit(changes);
      PlannedMeetsEffect(base, init);
      var tail := FoldChange(base, last);
      if Planned(base, init).Some? && tail.Some? {
        ApplyConcat(base, Fold(base, init).value, tail.value);
        LastChangeInForce(base, init, last);
      }
    }
  }

  lemma LastChangeInForce(base: Tree, init: seq<Change>, last: Change)
    requires Planned(base, init).Some? && PlanEffect(base, init, Planned(base, init).value)
    requires FoldChange(base, last).Some? && NoDup(last.TouchedPaths())
    requires Disjoint(Touched(init), last.TouchedPaths())
    ensures PlanEffect(base, init + [last],
                       ApplyTreeChanges(Planned(base, init).value, FoldChange(base, last).value))
  {
    var before := Planned(base, init).value;
    var after := ApplyTreeChanges(before, FoldChange(base, last).value);
    StepFrame(base, before, last);
    assert (init + [last])[..|init|] == init;
    forall c | c in init + [last] ensures ChangeInForce(base, c, after) {
      if c in init {
        assert ChangeInForce(base, c, before);
        forall p | p in c.TouchedPaths() ensures p !in last.TouchedPaths() {
          TouchesAll(init, c, p);
        }
        match c
        case Upsert(p, _) => assert p in c.TouchedPaths();
        case Remove(p) => assert p in c.TouchedPaths();
        case Rename(f, t) => assert f in c.TouchedPaths() && t in c.TouchedPaths();
      }
    }
  }

  /** Applying one folded change puts it in force and leaves every other path alone. */
  lemma StepFrame(base: Tree, before: Tree, change: Change)
    requires FoldChange(base, change).Some? && NoDup(change.TouchedPaths())
    ensures var after := ApplyTreeChanges(before, FoldChange(base, change).value);
            && ChangeInForce(base, change, after)
            && forall p :: p !in change.TouchedPaths() ==> Lookup(after, p) == Lookup(before, p)
  {
    match change
    case Upsert(p, x) =>
      assert ApplyTreeChanges(before, [Put(p, x)]) == before[p := x];
    case Remove(p) =>
      assert ApplyTreeChanges(before, [Drop(p)]) == before - {p};
    case Rename(f, t) =>
      var two := [Drop(f), Put(t, base[f])];
      assert two[..1] == [Drop(f)];
      assert ApplyTreeChanges(before, [Drop(f)]) == before - {f};
      assert ApplyTreeChanges(before, two) == (before - {f})[t := base[f]];
      assert change.TouchedPaths()[0] != change.TouchedPaths()[1];
  }

  // ---------------------------------------------------------------------------------------------
  // Order independence
  // ---------------------------------------------------------------------------------------------

  /** Taking one change out of a list takes its paths out of the touched ones. */
  lemma TouchedWithout(a: seq<Change>, c: Change, b: seq<Change>)
    ensures multiset(Touched((a + [c]) + b)) == multiset(Touched(a + b)) + multiset(c.TouchedPaths())
  {
    hide Touched;
    TouchedConcat(a + [c], b);
    TouchedConcat(a, [c]);
    TouchedConcat(a, b);
    TouchedOne(c);
    MultisetMiddle(Touched(a), c.TouchedPaths(), Touched(b));
  }

  lemma TouchedOne(change: Change)
    ensures Touched([change]) == change.TouchedPaths()
  {
    assert [change][..0] == [];
  }

  /** The same changes in any order touch each path as often. */
  lemma {:induction false} TouchedMultiset(a: seq<Change>, b: seq<Change>)
    requires multiset(a) == multiset(b)
    ensures multiset(Touched(a)) == multiset(Touched(b))
  {
    if a == [] {
      assert |multiset(b)| == 0;
    } else {
      var init, last := a[..|a| - 1], a[|a| - 1];
      assert a == init + [last];
      assert last in multiset(b);
      var before, after := SplitAround(b, last);
      assert multiset(init) == multiset(a) - multiset{last};
      TouchedMultiset(init, before + after);
      TouchedWithout(before, last, after);
    }
  }

  lemma {:induction false} TouchedConcat(a: seq<Change>, b: seq<Change>)
    ensures Touched(a + b) == Touched(a) + Touched(b)
  {
    if b == [] {
      assert a + b == a;
    } else {
      assert (a + b)[..|a + b| - 1] == a + b[..|b| - 1];
      TouchedConcat(a, b[..|b| - 1]);
    }
  }

  /**
   * A plan that passes the duplicate-path check means the same in every order: the check accepts
   * every permutation, and folding and building gives the same tree or the same refusal.
   */
  lemma OrderIndependent(base: Tree, a: seq<Change>, b: seq<Change>)
    requires NoDup(Touched(a)) && multiset(a) == multiset(b)
    ensures NoDup(Touched(b))
    ensures Planned(base, a) == Planned(base, b)
  {
    TouchedMultiset(a, b);
    NoDupCounts(Touched(a));
    NoDupCounts(Touched(b));
    forall x | x in Touched(b) ensures multiset(Touched(b))[x] == 1 {
      assert x in multiset(Touched(a));
    }
    forall c ensures c in a <==> c in b {
      assert c in multiset(a) <==> c in multiset(b);
    }
    forall p ensures p in Touched(a) <==> p in Touched(b) {
      assert p in multiset(Touched(a)) <==> p in multiset(Touched(b));
    }
    PlannedMeetsEffect(base, a);
    PlannedMeetsEffect(base, b);
    if Planned(base, a).Some? {
      PlanEffectUnique(base, a, Planned(base, a).value, Planned(base, b).value);
    }
  }

  // ---------------------------------------------------------------------------------------------
  // One change after another
  // ---------------------------------------------------------------------------------------------

  /** The direct reading of a plan: each change acts on what the earlier ones left. */
  function InTurn(tree: Tree, changes: seq<Change>): Option<Tree> {
    if changes == [] then Some(tree)
    else
      var before := InTurn(tree, changes[..|changes| - 1]);
      if before.None? then None else Act(before.value, changes[|changes| - 1])
  }

  function Act(tree: Tree, change: Change): Option<Tree> {
    match change
    case Upsert(p, x) => Some(tree[p := x])
    case Remove(p) => Some(tree - {p})
    case Rename(f, t) => if f in tree then Some((tree - {f})[t := tree[f]]) else None
  }

  /** Reading renames off the base tree is the same as applying the changes one after another. */
  lemma {:induction false} FoldingEqualsInTurn(base: Tree, changes: seq<Change>)
    requires NoDup(Touched(changes))
    ensures Planned(base, changes) == InTurn(base, changes)
  {
    if changes != [] {
      var init, last := changes[..|changes| - 1], changes[|changes| - 1];
      TouchedSplit(changes);
      FoldingEqualsInTurn(base, init);
      PlannedMeetsEffect(base, init);
      if Planned(base, init).Some? {
        var before := Planned(base, init).value;
        if last.Rename? {
          assert last.from in last.TouchedPaths();
          assert Lookup(before, last.from) == Lookup(base, last.from);
        }
        if FoldChange(base, last).Some? {
          ApplyConcat(base, Fold(base, init).value, FoldChange(base, last).value);
          OneStep(base, before, last);
        }
      }
    }
  }

  lemma OneStep(base: Tree, before: Tree, change: Change)
    requires FoldChange(base, change).Some?
    requires change.Rename? ==> Lookup(before, change.from) == Lookup(base, change.from)
    ensures Act(before, change) == Some(ApplyTreeChanges(before, FoldChange(base, change).value))
  {
    match change
    case Upsert(p, x) =>
      assert ApplyTreeChanges(before, [Put(p, x)]) == before[p := x];
    case Remove(p) =>
      assert ApplyTreeChanges(before, [Drop(p)]) == before - {p};
    case Rename(f, t) =>
      var two := [Drop(f), Put(t, base[f])];
      assert two[..1] == [Drop(f)];
      assert ApplyTreeChanges(before, [Drop(f)]) == before - {f};
  }
}
