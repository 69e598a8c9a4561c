/**
 * Indices from a key to a list of entries, as the link graph keeps them: keys with nothing left
 * are dropped, so a present key always has an entry.
 */
module ListIndices {
  import opened Wrappers
  import opened Sequences
  import opened Notes
  import opened Digraphs
  import opened LinkTargets
  import opened Texts

  function At<K(==), T>(m: map<K, seq<T>>, k: K): seq<T> {
    if k in m then m[k] else []
  }

  function Push<K(==), T>(m: map<K, seq<T>>, k: K, x: T): map<K, seq<T>> {
    m[k := At(m, k) + [x]]
  }

  function PushNew<K(==), T(==)>(m: map<K, seq<T>>, k: K, x: T): map<K, seq<T>> {
    if x in At(m, k) then m[k := At(m, k)] else Push(m, k, x)
  }

  /** Enter `x` under every suffix of `keys` that starts at `i` or later, shortest first. */
  function PushSuffixes<T>(m: map<seq<string>, seq<T>>, keys: seq<string>, i: nat, x: T): map<seq<string>, seq<T>>
    requires i <= |keys|
    decreases |keys| - i
  {
    if i == |keys| then m else Push(PushSuffixes(m, keys, i + 1, x), keys[i..], x)
  }

  function PushAliases<T(==)>(text: Text, m: map<string, seq<T>>, aliases: seq<string>, x: T): map<string, seq<T>> {
    if aliases == [] then m
    else PushNew(PushAliases(text, m, aliases[..|aliases| - 1], x), text.lower(aliases[|aliases| - 1]), x)
  }

  /** Enter `x` under the stem of its path, if the path has one. */
  function PushStem<T>(text: Text, files: map<string, seq<T>>, path: NotePath, x: T): map<string, seq<T>> {
    match StemKey(text, path)
    case None => files
    case Some(key) => Push(files, key, x)
  }

  /** Take `x` out of every list, and the lists this empties out of the index. */
  function DropEach<K(==), T(==, !new)>(m: map<K, seq<T>>, x: T): map<K, seq<T>> {
    map k | k in m && Without(m[k], x) != [] :: Without(m[k], x)
  }

  /** Every list has entries, each once, and they all belong to `live`. */
  ghost predicate ListsOk<K(!new), T(!new)>(m: map<K, seq<T>>, live: set<T>) {
    forall k :: k in m ==> ListOk(m[k], live)
  }

  ghost predicate ListOk<T(!new)>(s: seq<T>, live: set<T>) {
    s != [] && NoDup(s) && forall x :: x in s ==> x in live
  }

  lemma AtDrop<K(!new), T(!new)>(m: map<K, seq<T>>, x: T, k: K)
    ensures At(DropEach(m, x), k) == Without(At(m, k), x)
  {
  }

  lemma {:induction false} AtPushSuffixes<T(!new)>(m: map<seq<string>, seq<T>>, keys: seq<string>, i: nat, x: T, k: seq<string>)
    requires i <= |keys|
    ensures At(PushSuffixes(m, keys, i, x), k)
         == if 0 < |k| <= |keys| - i && k == keys[|keys| - |k|..] then At(m, k) + [x] else At(m, k)
    decreases |keys| - i
  {
    if i < |keys| {
      AtPushSuffixes(m, keys, i + 1, x, k);
    }
  }

  lemma DropKeepsOk<K(!new), T(!new)>(m: map<K, seq<T>>, live: set<T>, x: T)
    requires ListsOk(m, live)
    ensures ListsOk(DropEach(m, x), live - {x})
  {
    var m' := DropEach(m, x);
    forall k | k in m' ensures ListOk(m'[k], live - {x}) {
      assert ListOk(m[k], live);
      WithoutNoDup(m[k], x);
    }
  }

  lemma PushKeepsOk<K(!new), T(!new)>(m: map<K, seq<T>>, live: set<T>, k: K, x: T)
    requires ListsOk(m, live) && x in live && x !in At(m, k)
    ensures ListsOk(Push(m, k, x), live)
  {
    var m' := Push(m, k, x);
    NoDupConcat(At(m, k), [x]);
    forall j | j in m' ensures ListOk(m'[j], live) {
      assert j in m ==> ListOk(m[j], live);
    }
  }

  lemma {:induction false} PushSuffixesKeepsOk<T(!new)>(m: map<seq<string>, seq<T>>, live: set<T>, keys: seq<string>, i: nat, x: T)
    requires ListsOk(m, live) && x in live && i <= |keys| && forall k :: x !in At(m, k)
    ensures ListsOk(PushSuffixes(m, keys, i, x), live)
    decreases |keys| - i
  {
    if i < |keys| {
      PushSuffixesKeepsOk(m, live, keys, i + 1, x);
      AtPushSuffixes(m, keys, i + 1, x, keys[i..]);
      PushKeepsOk(PushSuffixes(m, keys, i + 1, x), live, keys[i..], x);
    }
  }

  lemma {:induction false} PushAliasesKeepsOk<T(!new)>(text: Text, m: map<string, seq<T>>, live: set<T>, aliases: seq<string>, x: T)
    requires ListsOk(m, live) && x in live
    ensures ListsOk(PushAliases(text, m, aliases, x), live)
  {
    if aliases != [] {
      var init, key := aliases[..|aliases| - 1], text.lower(aliases[|aliases| - 1]);
      PushAliasesKeepsOk(text, m, live, init, x);
      var before := PushAliases(text, m, init, x);
      if x !in At(before, key) {
        PushKeepsOk(before, live, key, x);
      } else {
        assert before[key := At(before, key)] == before;
      }
    }
  }

  /** Besides what was there, a list holds `x` exactly if one of the aliases is its key. */
  lemma {:induction false} AtPushAliases<T(!new)>(text: Text, m: map<string, seq<T>>, aliases: seq<string>, x: T, k: string)
    ensures forall y :: y in At(PushAliases(text, m, aliases, x), k)
                   <==> y in At(m, k) || (y == x && exists i :: 0 <= i < |aliases| && text.lower(aliases[i]) == k)
  {
    if aliases != [] {
      var n := |aliases| - 1;
      AtPushAliases(text, m, aliases[..n], x, k);
      assert (exists i :: 0 <= i < |aliases| && text.lower(aliases[i]) == k)
        <==> (exists i :: 0 <= i < n && text.lower(aliases[..n][i]) == k) || text.lower(aliases[n]) == k by {
        if i :| 0 <= i < |aliases| && text.lower(aliases[i]) == k {
          assert i < n ==> aliases[..n][i] == aliases[i];
        }
      }
    }
  }
}
