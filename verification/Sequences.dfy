/** The few facts about sequences that several components rely on. */
module Sequences {

  ghost predicate NoDup<T>(s: seq<T>) {
    forall i, j :: 0 <= i < j < |s| ==> s[i] != s[j]
  }

  ghost predicate Disjoint<T>(a: seq<T>, b: seq<T>) {
    forall x :: x in a ==> x !in b
  }

  function Elements<T>(s: seq<T>): set<T> {
    set x | x in s
  }

  function Reversed<T>(s: seq<T>): seq<T> {
    seq(|s|, i requires 0 <= i < |s| => s[|s| - 1 - i])
  }

  lemma NoDupConcat<T>(a: seq<T>, b: seq<T>)
    requires NoDup(a) && NoDup(b)
    requires Disjoint(a, b)
    ensures NoDup(a + b)
  {
    var s := a + b;
    forall i, j | 0 <= i < j < |s| ensures s[i] != s[j] {
      if i < |a| <= j {
        assert s[i] in a && s[j] in b;
      }
    }
  }

  lemma NoDupSplit<T>(a: seq<T>, b: seq<T>)
    requires NoDup(a + b)
    ensures NoDup(a) && NoDup(b) && Disjoint(a, b)
  {
    var s := a + b;
    forall i, j | 0 <= i < j < |a| ensures a[i] != a[j] {
      assert s[i] == a[i] && s[j] == a[j];
    }
    forall i, j | 0 <= i < j < |b| ensures b[i] != b[j] {
      assert s[|a| + i] == b[i] && s[|a| + j] == b[j];
    }
    forall x | x in a ensures x !in b {
      var i :| 0 <= i < |a| && a[i] == x;
      forall j | 0 <= j < |b| ensures b[j] != x {
        assert s[i] == x && s[|a| + j] == b[j];
      }
    }
  }

  lemma {:induction false} NoDupCounts<T>(s: seq<T>)
    ensures NoDup(s) <==> forall x :: x in s ==> multiset(s)[x] == 1
  {
    if s != [] {
      var init, last := s[..|s| - 1], s[|s| - 1];
      assert s == init + [last];
      assert multiset(s) == multiset(init) + multiset{last};
      NoDupCounts(init);
      if NoDup(s) {
        assert last !in init;
      }
      if forall x :: x in s ==> multiset(s)[x] == 1 {
        forall x | x in init ensures multiset(init)[x] == 1 {
          assert x in s;
        }
        assert last in s;
        assert last !in init;
      }
    }
  }

  lemma SplitAround<T>(s: seq<T>, x: T) returns (before: seq<T>, after: seq<T>)
    requires x in s
    ensures s == (before + [x]) + after
    ensures multiset(before + after) == multiset(s) - multiset{x}
  {
    var k :| 0 <= k < |s| && s[k] == x;
    before, after := s[..k], s[k + 1..];
    assert s == (before + [x]) + after;
  }

  lemma MultisetMiddle<T>(x: seq<T>, y: seq<T>, z: seq<T>)
    ensures multiset((x + y) + z) == multiset(x + z) + multiset(y)
  {
  }
}
