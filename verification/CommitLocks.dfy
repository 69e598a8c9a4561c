/** The registry of in-process commit locks: one mutex for each worktree, made on first use. */
module CommitLocks {

  class Mutex {
    constructor () {
    }
  }

  class CommitLocks {
    /** A worktree's canonical directory, or the path itself where there is none. */
    const canonical: string -> string
    var mutexes: map<string, Mutex>

    /** No two worktrees share a mutex. */
    ghost predicate Valid()
      reads this
    {
      forall a, b :: a in mutexes && b in mutexes && mutexes[a] == mutexes[b] ==> a == b
    }

    constructor (canonical: string -> string)
      ensures Valid() && mutexes == map[] && this.canonical == canonical
    {
      this.canonical := canonical;
      mutexes := map[];
    }

    /**
     * The mutex of a worktree, however its path is spelled. Whoever asks for the same worktree
     * gets the same mutex, whatever others ask for in between; different worktrees never share.
     */
    method MutexFor(path: string) returns (mutex: Mutex)
      requires Valid()
      modifies this
      ensures Valid() && canonical(path) in mutexes && mutexes[canonical(path)] == mutex
      ensures mutexes.Keys == old(mutexes).Keys + {canonical(path)}
      ensures forall k :: k in old(mutexes) ==> mutexes[k] == old(mutexes)[k]
      ensures canonical(path) !in old(mutexes) ==> fresh(mutex)
    {
      var key := canonical(path);
      if key !in mutexes {
        var made := new Mutex();
        mutexes := mutexes[key := made];
      }
      mutex := mutexes[key];
    }
  }
}
