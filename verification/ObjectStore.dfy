/** The object database: an append-only list of commits. */
module ObjectStore {
  import opened Wrappers
  import opened ChangePlans

  // A commit id is the commit's position, so parents always come before their children.

  type Tree = map<Path, Content>
  type CommitId = nat

  datatype Commit = Commit(tree: Tree, parents: seq<CommitId>)

  type Store = seq<Commit>
  type Tip = Option<CommitId>

  function Lookup(files: Tree, path: Path): Option<Content> {
    if path in files then Some(files[path]) else None
  }

  predicate WellFormed(store: Store) {
    forall c, k :: 0 <= c < |store| && 0 <= k < |store[c].parents| ==> store[c].parents[k] < c
  }

  predicate ValidTip(store: Store, tip: Tip) {
    tip.Some? ==> tip.value < |store|
  }

  /** The tree a tip names; an unborn branch has none. */
  function TreeOf(store: Store, tip: Tip): Option<Tree>
    requires ValidTip(store, tip)
  {
    if tip.Some? then Some(store[tip.value].tree) else None
  }

  /** The files a tip makes visible: nothing on an unborn branch. */
  function FilesOf(store: Store, tip: Tip): Tree
    requires ValidTip(store, tip)
  {
    if tip.Some? then store[tip.value].tree else map[]
  }

  /** `store` with later commits appended. */
  ghost predicate Extends(store: Store, later: Store) {
    |store| <= |later| && later[..|store|] == store
  }

  /** Reachability along parent links, reflexive. */
  ghost predicate Ancestor(store: Store, a: CommitId, b: CommitId)
    requires WellFormed(store) && b < |store|
    decreases b
  {
    a == b || exists k :: 0 <= k < |store[b].parents| && Ancestor(store, a, store[b].parents[k])
  }

  /** Moving a branch from `before` to `after` keeps every commit it had: nothing is orphaned. */
  ghost predicate Descends(store: Store, before: Tip, after: Tip)
    requires WellFormed(store) && ValidTip(store, after)
  {
    before.Some? ==> after.Some? && Ancestor(store, before.value, after.value)
  }

  lemma {:induction false} AncestorTransitive(store: Store, a: CommitId, b: CommitId, c: CommitId)
    requires WellFormed(store) && b < |store| && c < |store|
    requires Ancestor(store, a, b) && Ancestor(store, b, c)
    ensures Ancestor(store, a, c)
    decreases c
  {
    if b != c {
      var k :| 0 <= k < |store[c].parents| && Ancestor(store, b, store[c].parents[k]);
      AncestorTransitive(store, a, b, store[c].parents[k]);
    }
  }

  /** Appending commits neither adds nor removes ancestors of a commit already present. */
  lemma {:induction false} AncestorStable(store: Store, later: Store, a: CommitId, b: CommitId)
    requires WellFormed(store) && WellFormed(later) && Extends(store, later) && b < |store|
    ensures Ancestor(store, a, b) <==> Ancestor(later, a, b)
    decreases b
  {
    assert later[b] == store[b];
    forall k | 0 <= k < |store[b].parents|
      ensures Ancestor(store, a, store[b].parents[k]) <==> Ancestor(later, a, store[b].parents[k])
    {
      AncestorStable(store, later, a, store[b].parents[k]);
    }
  }

  lemma DescendsTransitive(store: Store, a: Tip, b: Tip, c: Tip)
    requires WellFormed(store) && ValidTip(store, b) && ValidTip(store, c)
    requires Descends(store, a, b) && Descends(store, b, c)
    ensures Descends(store, a, c)
  {
    if a.Some? {
      AncestorTransitive(store, a.value, b.value, c.value);
    }
  }

  lemma DescendsStable(store: Store, later: Store, a: Tip, b: Tip)
    requires WellFormed(store) && WellFormed(later) && Extends(store, later) && ValidTip(store, b)
    ensures Descends(store, a, b) <==> Descends(later, a, b)
  {
    if a.Some? && b.Some? {
      AncestorStable(store, later, a.value, b.value);
    }
  }

  lemma ParentIsAncestor(store: Store, c: CommitId, k: nat)
    requires WellFormed(store) && c < |store| && k < |store[c].parents|
    ensures Ancestor(store, store[c].parents[k], c)
  {
    assert Ancestor(store, store[c].parents[k], store[c].parents[k]);
  }
}
