/**
 * What every step of the write protocol keeps. For each writer: what its program point lets it
 * assume about the tip it read, the commit it built and the entry it wrote. For the whole state:
 * who holds the commit lock, who wrote which entry of the branch history, and that scratch branches
 * descend from their fork points. Appending commits and history entries disturbs none of it.
 */
module WriteInvariants {
  import opened Wrappers
  import opened ChangePlans
  import opened ObjectStore
  import opened Attempts
  import opened Materialization
  import opened WriteProtocol

  ghost predicate HistOk(store: Store, hist: seq<Entry>) {
    WellFormed(store) && hist != [] && forall i :: 0 <= i < |hist| ==> ValidTip(store, hist[i].tip)
  }

  /** The commit that `call` may put on a branch whose tip is `tip`. */
  ghost predicate Sound(store: Store, call: Call, tip: Tip, commit: CommitId)
    requires WellFormed(store)
  {
    && ValidTip(store, tip) && commit < |store|
    && match call
       case Changeset(plan, _) =>
         && Try(TreeOf(store, tip), plan) == Built(store[commit].tree)
         && store[commit].parents == TipParents(tip)
       case MergeBack(_, strategy) =>
         && tip.Some?
         && Ancestor(store, tip.value, commit)
         && (strategy.MergeCommit? ==> |store[commit].parents| == 2 && store[commit].parents[0] == tip.value)
  }

  /** The writer's own compare-and-swap turned history entry `landed` into the next one. */
  ghost predicate Landed(store: Store, hist: seq<Entry>, id: WriterId, writer: Writer, commit: CommitId)
    requires WellFormed(store)
  {
    && writer.landed.Some?
    && writer.entry <= writer.landed.value && writer.landed.value + 1 < |hist|
    && hist[writer.landed.value + 1] == Entry(Some(commit), By(id))
    && Sound(store, writer.call, hist[writer.landed.value].tip, commit)
  }

  /** Each lost race fell after its tip read, and only outside processes wrote in between. */
  ghost predicate RacesOk(hist: seq<Entry>, writer: Writer) {
    && |writer.losses| <= |writer.seen| <= |writer.losses| + 1
    && |writer.losses| <= writer.call.Budget() + 1 && |writer.seen| <= writer.call.Budget() + 1
    && (forall k :: 0 <= k < |writer.seen| ==> writer.entry <= writer.seen[k] < |hist|)
    && (forall k :: 0 <= k < |writer.losses| ==> LostTo(hist, writer.seen[k], writer.losses[k]))
    && (forall k :: 0 <= k < |writer.losses| && k + 1 < |writer.seen| ==> writer.losses[k] <= writer.seen[k + 1])
  }

  ghost predicate LostTo(hist: seq<Entry>, read: nat, loss: nat) {
    read < loss < |hist| && forall j :: read < j <= loss ==> hist[j].mover == Outside
  }

  /** A changeset's last attempt, on the tip it read last, came to `attempt`. */
  ghost predicate LastAttempt(store: Store, hist: seq<Entry>, writer: Writer, attempt: Attempt) {
    && writer.call.Changeset? && writer.seen != []
    && writer.seen[|writer.seen| - 1] < |hist|
    && var tip := hist[writer.seen[|writer.seen| - 1]].tip;
       ValidTip(store, tip) && Try(TreeOf(store, tip), writer.call.plan) == attempt
  }

  ghost predicate OutcomeOk(store: Store, hist: seq<Entry>, id: WriterId, writer: Writer, outcome: Outcome)
    requires WellFormed(store)
  {
    match outcome
    case Committed(c) => writer.call.Changeset? && Landed(store, hist, id, writer, c)
    case Merged(c) => writer.call.MergeBack? && Landed(store, hist, id, writer, c)
    case Unchanged(c) =>
      && writer.landed.None? && LastAttempt(store, hist, writer, NoChange)
      && hist[writer.seen[|writer.seen| - 1]].tip == Some(c)
    case NothingToMerge(c) => writer.landed.None? && writer.call.MergeBack?
    case Rejected(Other(IoFailure)) => writer.landed.Some? ==> exists c :: Landed(store, hist, id, writer, c)
    case Rejected(Concurrency(StalePrecondition(p))) =>
      writer.landed.None? && LastAttempt(store, hist, writer, Failed(Concurrency(StalePrecondition(p))))
    case Rejected(Concurrency(RefMoved)) => writer.landed.None? && writer.call.MergeBack?
    case Rejected(Other(MissingRenameSource(p))) =>
      writer.landed.None? && LastAttempt(store, hist, writer, Failed(Other(MissingRenameSource(p))))
    case Rejected(Other(RetriesExhausted)) =>
      writer.landed.None? && writer.call.Changeset? && |writer.losses| == writer.call.Budget() + 1
    case Rejected(Other(_)) => writer.landed.None?
  }

  ghost predicate PcOk(store: Store, hist: seq<Entry>, id: WriterId, writer: Writer)
    requires HistOk(store, hist)
  {
    match writer.pc
    case Waiting => Fresh(writer)
    case Entered => writer.landed.None? && |writer.seen| == |writer.losses| <= writer.call.Budget()
    case WipRead(fork, wip) =>
      && writer.landed.None? && |writer.seen| == |writer.losses| <= writer.call.Budget()
      && writer.call.MergeBack? && wip < |store| && Ancestor(store, fork, wip)
    case TipRead(tip) => writer.call.Changeset? && HoldsTip(hist, writer, tip)
    case Checking(tip, next) =>
      writer.call.Changeset? && HoldsTip(hist, writer, tip) && next <= |writer.call.plan.TouchedPaths()|
    case Merging(tip, wip) => writer.call.MergeBack? && writer.call.strategy.MergeCommit? && HoldsTip(hist, writer, tip)
    case Ready(tip, c) => HoldsTip(hist, writer, tip) && Sound(store, writer.call, tip, c)
    case Revealing(tip, c, paths, done) =>
      && Landed(store, hist, id, writer, c)
      && hist[writer.landed.value].tip == tip
      && Covers(store, tip, c, paths)
      && done <= |Script(store[c].tree, paths)|
    case Leaving(outcome) => OutcomeOk(store, hist, id, writer, outcome)
    case Finished(outcome) => OutcomeOk(store, hist, id, writer, outcome)
    case Crashed => writer.landed.Some? ==> exists c :: Landed(store, hist, id, writer, c)
  }

  /** Nothing but the listed paths differs between the tip's files and the commit's. */
  ghost predicate Covers(store: Store, tip: Tip, commit: CommitId, paths: seq<Path>)
    requires WellFormed(store)
  {
    ValidTip(store, tip) && commit < |store| && AgreeOff(store[commit].tree, FilesOf(store, tip), paths)
  }

  ghost predicate HoldsTip(hist: seq<Entry>, writer: Writer, tip: Tip) {
    && writer.landed.None?
    && |writer.losses| <= writer.call.Budget() && |writer.seen| == |writer.losses| + 1
    && writer.seen[|writer.seen| - 1] < |hist|
    && hist[writer.seen[|writer.seen| - 1]].tip == tip
  }

  /** Until it lands, a writer in its critical section sees only outside processes move the branch. */
  ghost predicate Undisturbed(hist: seq<Entry>, writer: Writer) {
    Critical(writer.pc) && writer.landed.None? ==>
      forall j :: writer.entry < j < |hist| ==> hist[j].mover == Outside
  }

  /** A plan refused up front is answered without the lock ever being taken. */
  predicate NeverEntered(writer: Writer) {
    writer.landed.None? &&
    (writer.pc.Waiting? || (writer.pc.Finished? && writer.pc.outcome.Rejected? && writer.pc.outcome.error.Other?))
  }

  ghost predicate WriterOk(store: Store, hist: seq<Entry>, id: WriterId, writer: Writer)
    requires HistOk(store, hist)
  {
    && writer.entry < |hist|
    && (Refused(writer.call) ==> NeverEntered(writer))
    && RacesOk(hist, writer)
    && Undisturbed(hist, writer)
    && PcOk(store, hist, id, writer)
  }

  ghost predicate LockOk(s: State) {
    forall w :: 0 <= w < |s.writers| ==> (Critical(s.writers[w].pc) <==> s.lock == Some(w))
  }

  /** A history entry that names a writer is the one that writer's compare-and-swap made. */
  ghost predicate OwnersOk(s: State) {
    forall j: int, w: nat :: 0 <= j < |s.hist| && s.hist[j].mover == By(w) ==>
      0 < j && w < |s.writers| && s.writers[w].landed == Some(j - 1)
  }

  ghost predicate FansOk(s: State)
    requires ValidIds(s)
  {
    forall f :: f in s.fans ==> Ancestor(s.store, s.fans[f].fork, s.fans[f].tip)
  }

  ghost predicate Inv(s: State) {
    && ValidIds(s)
    && s.hist[|s.hist| - 1].tip == s.head
    && LockOk(s) && OwnersOk(s) && FansOk(s)
    && forall w :: 0 <= w < |s.writers| ==> WriterOk(s.store, s.hist, w, s.writers[w])
  }

  // ---------------------------------------------------------------------------------------------
  // Growth: appending commits and history entries disturbs no fact about earlier ones
  // ---------------------------------------------------------------------------------------------

  ghost predicate Grows(store: Store, hist: seq<Entry>, store': Store, hist': seq<Entry>) {
    && WellFormed(store) && HistOk(store', hist') && Extends(store, store')
    && HistOk(store, hist) && |hist| <= |hist'| && hist'[..|hist|] == hist
  }

  lemma SoundKept(store: Store, store': Store, call: Call, tip: Tip, commit: CommitId)
    requires WellFormed(store) && WellFormed(store') && Extends(store, store')
    requires Sound(store, call, tip, commit)
    ensures Sound(store', call, tip, commit)
  {
    assert store'[commit] == store[commit];
    if tip.Some? {
      assert store'[tip.value] == store[tip.value];
      AncestorStable(store, store', tip.value, commit);
    }
  }

  lemma LandedKept(store: Store, hist: seq<Entry>, store': Store, hist': seq<Entry>, id: WriterId, writer: Writer, commit: CommitId)
    requires Grows(store, hist, store', hist') && Landed(store, hist, id, writer, commit)
    ensures Landed(store', hist', id, writer, commit)
  {
    var k := writer.landed.value;
    assert hist'[k] == hist[k] && hist'[k + 1] == hist[k + 1];
    SoundKept(store, store', writer.call, hist[k].tip, commit);
  }

  lemma AttemptKept(store: Store, hist: seq<Entry>, store': Store, hist': seq<Entry>, writer: Writer, attempt: Attempt)
    requires Grows(store, hist, store', hist') && LastAttempt(store, hist, writer, attempt)
    ensures LastAttempt(store', hist', writer, attempt)
  {
    var r := writer.seen[|writer.seen| - 1];
    assert hist'[r] == hist[r];
    if hist[r].tip.Some? {
      assert store'[hist[r].tip.value] == store[hist[r].tip.value];
    }
  }

  lemma OutcomeKept(store: Store, hist: seq<Entry>, store': Store, hist': seq<Entry>, id: WriterId, writer: Writer, outcome: Outcome)
    requires Grows(store, hist, store', hist') && OutcomeOk(store, hist, id, writer, outcome)
    ensures OutcomeOk(store', hist', id, writer, outcome)
  {
    match outcome
    case Committed(c) => LandedKept(store, hist, store', hist', id, writer, c);
    case Merged(c) => LandedKept(store, hist, store', hist', id, writer, c);
    case Unchanged(c) => AttemptKept(store, hist, store', hist', writer, NoChange);
    case NothingToMerge(_) =>
    case Rejected(Other(IoFailure)) =>
      if writer.landed.Some? {
        var c :| Landed(store, hist, id, writer, c);
        LandedKept(store, hist, store', hist', id, writer, c);
      }
    case Rejected(Concurrency(StalePrecondition(p))) =>
      AttemptKept(store, hist, store', hist', writer, Failed(Concurrency(StalePrecondition(p))));
    case Rejected(Concurrency(RefMoved)) =>
    case Rejected(Other(MissingRenameSource(p))) =>
      AttemptKept(store, hist, store', hist', writer, Failed(Other(MissingRenameSource(p))));
    case Rejected(Other(RetriesExhausted)) =>
    case Rejected(Other(_)) =>
  }

  lemma PcKept(store: Store, hist: seq<Entry>, store': Store, hist': seq<Entry>, id: WriterId, writer: Writer)
    requires Grows(store, hist, store', hist') && PcOk(store, hist, id, writer)
    ensures PcOk(store', hist', id, writer)
  {
    match writer.pc
    case Waiting =>
    case Entered =>
    case WipRead(fork, wip) => AncestorStable(store, store', fork, wip);
    case TipRead(tip) =>
    case Checking(tip, _) =>
    case Merging(tip, wip) =>
    case Ready(tip, c) => SoundKept(store, store', writer.call, tip, c);
    case Revealing(tip, c, _, _) =>
      LandedKept(store, hist, store', hist', id, writer, c);
      assert store'[c] == store[c];
      if tip.Some? {
        assert store'[tip.value] == store[tip.value];
      }
    case Leaving(outcome) => OutcomeKept(store, hist, store', hist', id, writer, outcome);
    case Finished(outcome) => OutcomeKept(store, hist, store', hist', id, writer, outcome);
    case Crashed =>
      if writer.landed.Some? {
        var c :| Landed(store, hist, id, writer, c);
        LandedKept(store, hist, store', hist', id, writer, c);
      }
  }

  lemma WriterKept(store: Store, hist: seq<Entry>, store': Store, hist': seq<Entry>, id: WriterId, writer: Writer)
    requires Grows(store, hist, store', hist') && WriterOk(store, hist, id, writer)
    requires Critical(writer.pc) ==> forall j :: |hist| <= j < |hist'| ==> hist'[j].mover == Outside
    ensures WriterOk(store', hist', id, writer)
  {
    hide PcOk, Extends, WellFormed;
    PcKept(store, hist, store', hist', id, writer);
    forall k | 0 <= k < |writer.losses| ensures LostTo(hist', writer.seen[k], writer.losses[k]) {
      assert LostTo(hist, writer.seen[k], writer.losses[k]);
    }
  }
}
