/**
 * Every step of the write protocol keeps the invariant, so every run does. A step belongs to one
 * writer, to the outside world or to a fan-out. A writer's step replaces that writer's record and
 * at most appends a commit and one history entry, so the facts about all other writers carry over
 * (`InvAfterMove` and its special cases for quiet moves, moves within the critical section and new
 * commit objects); what is left for each kind of step is that the writer's new record fits its new
 * program point.
 */
module WriteSteps {
  import opened Wrappers
  import opened ChangePlans
  import opened ObjectStore
  import opened Attempts
  import opened Materialization
  import opened WriteProtocol
  import opened WriteInvariants

  /** `s'` is `s` with writer `w` replaced, perhaps new commits, perhaps one new history entry of its own. */
  ghost predicate Moves(s: State, s': State, w: WriterId, writer: Writer)
    requires At(s, w)
  {
    && s'.writers == s.writers[w := writer]
    && s'.fans == s.fans
    && Grows(s.store, s.hist, s'.store, s'.hist)
    && ValidTip(s'.store, s'.head) && s'.hist[|s'.hist| - 1].tip == s'.head
    && (Critical(writer.pc) <==> s'.lock == Some(w))
    && (forall v :: v != w ==> (s.lock == Some(v) <==> s'.lock == Some(v)))
    && OwnEntries(s, s', w, writer)
  }

  /** The only new history entry a writer makes is the one its compare-and-swap notes. */
  ghost predicate OwnEntries(s: State, s': State, w: WriterId, writer: Writer)
    requires At(s, w) && s.hist != []
  {
    if s'.hist == s.hist then writer.landed == s.writers[w].landed
    else
      && s.lock == Some(w) && |s'.hist| == |s.hist| + 1 && s'.hist[..|s.hist|] == s.hist
      && s'.hist[|s.hist|].mover == By(w)
      && s.writers[w].landed.None? && writer.landed == Some(|s.hist| - 1)
  }

  lemma MoveKeepsWriters(s: State, s': State, w: WriterId, writer: Writer, v: WriterId)
    requires Inv(s) && At(s, w) && Moves(s, s', w, writer)
    requires v < |s.writers| && v != w
    ensures PcIds(s'.store, s.writers[v].pc) && WriterOk(s'.store, s'.hist, v, s.writers[v])
  {
    assert WriterOk(s.store, s.hist, v, s.writers[v]);
    assert PcIds(s.store, s.writers[v].pc);
    assert Critical(s.writers[v].pc) <==> s.lock == Some(v);
    WriterKept(s.store, s.hist, s'.store, s'.hist, v, s.writers[v]);
  }

  lemma FansKept(s: State, store': Store)
    requires Inv(s) && WellFormed(store') && Extends(s.store, store')
    ensures forall f :: f in s.fans ==> Ancestor(store', s.fans[f].fork, s.fans[f].tip)
  {
    forall f | f in s.fans ensures Ancestor(store', s.fans[f].fork, s.fans[f].tip) {
      AncestorStable(s.store, store', s.fans[f].fork, s.fans[f].tip);
    }
  }

  lemma MoveKeepsOwners(s: State, s': State, w: WriterId, writer: Writer)
    requires OwnersOk(s) && At(s, w) && s.hist != [] && s'.writers == s.writers[w := writer] && OwnEntries(s, s', w, writer)
    ensures OwnersOk(s')
  {
    forall j: int, v: nat | 0 <= j < |s'.hist| && s'.hist[j].mover == By(v)
      ensures 0 < j && v < |s'.writers| && s'.writers[v].landed == Some(j - 1)
    {
      if j < |s.hist| {
        assert s.hist[j] == s'.hist[j];
      }
    }
  }

  lemma InvAfterMove(s: State, s': State, w: WriterId, writer: Writer)
    requires Inv(s) && At(s, w) && Moves(s, s', w, writer)
    requires PcIds(s'.store, writer.pc) && WriterOk(s'.store, s'.hist, w, writer)
    ensures Inv(s')
  {
    forall v | 0 <= v < |s'.writers| ensures PcIds(s'.store, s'.writers[v].pc) && WriterOk(s'.store, s'.hist, v, s'.writers[v]) {
      if v != w {
        MoveKeepsWriters(s, s', w, writer, v);
      }
    }
    FansKept(s, s'.store);
    MoveKeepsOwners(s, s', w, writer);
    MoveKeepsLock(s, s', w, writer);
  }

  lemma MoveKeepsLock(s: State, s': State, w: WriterId, writer: Writer)
    requires LockOk(s) && At(s, w) && s'.writers == s.writers[w := writer]
    requires Critical(writer.pc) <==> s'.lock == Some(w)
    requires forall v :: v != w ==> (s.lock == Some(v) <==> s'.lock == Some(v))
    ensures LockOk(s')
  {
    forall v | 0 <= v < |s'.writers| ensures Critical(s'.writers[v].pc) <==> s'.lock == Some(v) {
      assert Critical(s.writers[v].pc) <==> s.lock == Some(v);
    }
  }

  /** A step that leaves the object database and the branch alone. */
  lemma InvAfterQuietMove(s: State, s': State, w: WriterId, writer: Writer)
    requires Inv(s) && At(s, w)
    requires s'.store == s.store && s'.head == s.head && s'.hist == s.hist && s'.fans == s.fans
    requires s'.writers == s.writers[w := writer] && writer.landed == s.writers[w].landed
    requires Critical(writer.pc) <==> s'.lock == Some(w)
    requires forall v :: v != w ==> (s.lock == Some(v) <==> s'.lock == Some(v))
    requires PcIds(s.store, writer.pc) && WriterOk(s.store, s.hist, w, writer)
    ensures Inv(s')
  {
    hide WriterOk, Script, Ancestor;
    InvAfterMove(s, s', w, writer);
  }

  /** A critical writer that takes a step inside its critical section keeps the lock. */
  lemma InvAfterInnerMove(s: State, s': State, w: WriterId, writer: Writer)
    requires Inv(s) && At(s, w) && Critical(s.writers[w].pc) && Critical(writer.pc)
    requires s'.store == s.store && s'.head == s.head && s'.hist == s.hist && s'.fans == s.fans && s'.lock == s.lock
    requires s'.writers == s.writers[w := writer] && writer.landed == s.writers[w].landed
    requires PcIds(s.store, writer.pc) && WriterOk(s.store, s.hist, w, writer)
    ensures Inv(s')
  {
    hide WriterOk, Script, Ancestor;
    assert s.lock == Some(w);
    InvAfterQuietMove(s, s', w, writer);
  }

  lemma AppendGrowth(store: Store, hist: seq<Entry>, c: Commit)
    requires HistOk(store, hist)
    requires forall k :: 0 <= k < |c.parents| ==> c.parents[k] < |store|
    ensures Grows(store, hist, store + [c], hist)
    ensures (store + [c])[|store|] == c
  {
    var store' := store + [c];
    assert store'[..|store|] == store;
    forall b, k | 0 <= b < |store'| && 0 <= k < |store'[b].parents| ensures store'[b].parents[k] < b {
      if b < |store| {
        assert store'[b] == store[b];
      }
    }
  }

  /** A critical writer that only adds a commit object keeps the invariant if its own part holds. */
  lemma InvAfterCommitObject(s: State, s': State, w: WriterId, writer: Writer, c: Commit)
    requires Inv(s) && At(s, w) && Critical(s.writers[w].pc) && Critical(writer.pc)
    requires forall k :: 0 <= k < |c.parents| ==> c.parents[k] < |s.store|
    requires s'.store == s.store + [c]
    requires s'.head == s.head && s'.hist == s.hist && s'.fans == s.fans && s'.lock == s.lock
    requires s'.writers == s.writers[w := writer] && writer.landed == s.writers[w].landed
    requires HistOk(s'.store, s.hist)
    requires PcIds(s'.store, writer.pc) && WriterOk(s'.store, s.hist, w, writer)
    ensures Inv(s')
  {
    hide WriterOk, Script, Ancestor;
    assert s.lock == Some(w);
    AppendGrowth(s.store, s.hist, c);
    InvAfterMove(s, s', w, writer);
  }

  // ---------------------------------------------------------------------------------------------
  // The moving writer, without the rest of the state
  // ---------------------------------------------------------------------------------------------

  /** Ending an attempt with an outcome that the writer's record supports. */
  lemma WriterLeaves(store: Store, hist: seq<Entry>, w: WriterId, writer: Writer, outcome: Outcome)
    requires HistOk(store, hist) && WriterOk(store, hist, w, writer) && Critical(writer.pc)
    requires OutcomeOk(store, hist, w, writer, outcome)
    ensures WriterOk(store, hist, w, writer.(pc := Leaving(outcome)))
  {
    var after := writer.(pc := Leaving(outcome));
    OutcomeIgnoresPc(store, hist, w, writer, after, outcome);
    assert RacesOk(hist, after);
  }

  ghost predicate SameRecord(a: Writer, b: Writer) {
    a.call == b.call && a.entry == b.entry && a.seen == b.seen && a.losses == b.losses && a.landed == b.landed
  }

  lemma OutcomeIgnoresPc(store: Store, hist: seq<Entry>, w: WriterId, a: Writer, b: Writer, outcome: Outcome)
    requires HistOk(store, hist) && SameRecord(a, b) && OutcomeOk(store, hist, w, a, outcome)
    ensures OutcomeOk(store, hist, w, b, outcome)
  {
    if a.landed.Some? {
      forall c | Landed(store, hist, w, a, c) ensures Landed(store, hist, w, b, c) {
      }
    }
  }

  lemma WriterReads(store: Store, hist: seq<Entry>, w: WriterId, writer: Writer, pc: Pc)
    requires HistOk(store, hist) && WriterOk(store, hist, w, writer)
    requires writer.pc.Entered? || writer.pc.WipRead?
    requires Critical(pc)
    requires var after := writer.(seen := writer.seen + [|hist| - 1], pc := pc); PcOk(store, hist, w, after)
    ensures WriterOk(store, hist, w, writer.(seen := writer.seen + [|hist| - 1], pc := pc))
  {
    var after := writer.(seen := writer.seen + [|hist| - 1], pc := pc);
    forall k | 0 <= k < |after.losses| ensures LostTo(hist, after.seen[k], after.losses[k]) {
      assert LostTo(hist, writer.seen[k], writer.losses[k]);
    }
    forall k | 0 <= k < |after.losses| && k + 1 < |after.seen| ensures after.losses[k] <= after.seen[k + 1] {
      assert LostTo(hist, writer.seen[k], writer.losses[k]);
    }
  }

  lemma RacesAfterLoss(hist: seq<Entry>, writer: Writer)
    requires hist != [] && RacesOk(hist, writer)
    requires |writer.losses| <= writer.call.Budget() && |writer.seen| == |writer.losses| + 1
    requires LostTo(hist, writer.seen[|writer.seen| - 1], |hist| - 1)
    ensures RacesOk(hist, writer.(losses := writer.losses + [|hist| - 1]))
  {
    var lost := writer.(losses := writer.losses + [|hist| - 1]);
    forall k | 0 <= k < |lost.losses| ensures LostTo(hist, lost.seen[k], lost.losses[k]) {
      if k < |writer.losses| {
        assert LostTo(hist, writer.seen[k], writer.losses[k]);
      }
    }
  }

  lemma WriterLoses(store: Store, hist: seq<Entry>, w: WriterId, writer: Writer)
    requires HistOk(store, hist) && WriterOk(store, hist, w, writer)
    requires writer.pc.Ready? && writer.call.Changeset? && hist[|hist| - 1].tip != writer.pc.tip
    ensures var losses := writer.losses + [|hist| - 1];
            WriterOk(store, hist, w, writer.(losses := losses, pc := AfterLoss(losses, writer.call.Budget())))
  {
    hide Script, Ancestor, WellFormed;
    var losses := writer.losses + [|hist| - 1];
    var r := writer.seen[|writer.seen| - 1];
    assert LostTo(hist, r, |hist| - 1);
    RacesAfterLoss(hist, writer);
    var after := writer.(losses := losses, pc := AfterLoss(losses, writer.call.Budget()));
    assert RacesOk(hist, writer.(losses := losses));
    assert RacesOk(hist, after);
    assert PcOk(store, hist, w, after);
  }

  lemma RacesGrow(hist: seq<Entry>, hist': seq<Entry>, writer: Writer)
    requires RacesOk(hist, writer) && |hist| <= |hist'| && hist'[..|hist|] == hist
    ensures RacesOk(hist', writer)
  {
    forall i | 0 <= i < |writer.losses| ensures LostTo(hist', writer.seen[i], writer.losses[i]) {
      assert LostTo(hist, writer.seen[i], writer.losses[i]);
    }
  }

  /** The state the writer is in just after its compare-and-swap wrote the branch. */
  lemma WriterLands(store: Store, hist: seq<Entry>, w: WriterId, writer: Writer, changed: seq<Path>)
    requires HistOk(store, hist) && WriterOk(store, hist, w, writer)
    requires writer.pc.Ready? && writer.pc.commit < |store| && hist[|hist| - 1].tip == writer.pc.tip
    requires Covers(store, writer.pc.tip, writer.pc.commit, changed)
    ensures var hist' := hist + [Entry(Some(writer.pc.commit), By(w))];
            var after := writer.(pc := Revealing(writer.pc.tip, writer.pc.commit, changed, 0), landed := Some(|hist| - 1));
            HistOk(store, hist') && Grows(store, hist, store, hist') && WriterOk(store, hist', w, after)
  {
    hide Script, Ancestor, WellFormed, Covers, RacesOk, Sound;
    var hist' := hist + [Entry(Some(writer.pc.commit), By(w))];
    var after := writer.(pc := Revealing(writer.pc.tip, writer.pc.commit, changed, 0), landed := Some(|hist| - 1));
    assert hist'[..|hist|] == hist;
    RacesGrow(hist, hist', writer);
    RacesIgnorePc(hist', writer, after);
    assert hist'[|hist|] == Entry(Some(writer.pc.commit), By(w)) && hist'[|hist| - 1] == hist[|hist| - 1];
    assert Landed(store, hist', w, after, writer.pc.commit);
  }

  lemma RacesIgnorePc(hist: seq<Entry>, a: Writer, b: Writer)
    requires RacesOk(hist, a) && a.call == b.call && a.entry == b.entry && a.seen == b.seen && a.losses == b.losses
    ensures RacesOk(hist, b)
  {
  }

  // ---------------------------------------------------------------------------------------------
  // Step by step
  // ---------------------------------------------------------------------------------------------

  lemma Leaves(s: State, s': State, w: WriterId, outcome: Outcome)
    requires Inv(s) && At(s, w) && Critical(s.writers[w].pc)
    requires OutcomeOk(s.store, s.hist, w, s.writers[w], outcome)
    requires s'.store == s.store && s'.head == s.head && s'.hist == s.hist && s'.fans == s.fans && s'.lock == s.lock
    requires s'.writers == s.writers[w := s.writers[w].(pc := Leaving(outcome))]
    ensures Inv(s')
  {
    hide Script, Ancestor, WellFormed;
    WriterLeaves(s.store, s.hist, w, s.writers[w], outcome);
    InvAfterInnerMove(s, s', w, s.writers[w].(pc := Leaving(outcome)));
  }

  lemma StepRefuse(s: State, w: WriterId)
    requires Inv(s) && Enabled(s, Refuse(w))
    ensures Inv(Apply(s, Refuse(w)))
  {
    hide Script, Ancestor, WellFormed;
    var s' := Apply(s, Refuse(w));
    assert WriterOk(s.store, s.hist, w, s.writers[w]);
    assert s.lock != Some(w);
    InvAfterQuietMove(s, s', w, s'.writers[w]);
  }

  lemma StepAcquire(s: State, w: WriterId)
    requires Inv(s) && Enabled(s, Acquire(w))
    ensures Inv(Apply(s, Acquire(w)))
  {
    var s' := Apply(s, Acquire(w));
    assert WriterOk(s.store, s.hist, w, s.writers[w]);
    InvAfterQuietMove(s, s', w, s'.writers[w]);
  }

  lemma StepReadWip(s: State, w: WriterId)
    requires Inv(s) && Enabled(s, ReadWip(w))
    ensures Inv(Apply(s, ReadWip(w)))
  {
    hide Script, Ancestor, WellFormed;
    var s' := Apply(s, ReadWip(w));
    assert WriterOk(s.store, s.hist, w, s.writers[w]);
    if s'.writers[w].pc.Leaving? {
      Leaves(s, s', w, Rejected(Other(MissingBranch)));
    } else {
      assert FansOk(s);
      InvAfterInnerMove(s, s', w, s'.writers[w]);
    }
  }

  lemma StepReadTip(s: State, w: WriterId)
    requires Inv(s) && Enabled(s, ReadTip(w))
    ensures Inv(Apply(s, ReadTip(w)))
  {
    hide Script, Ancestor, WellFormed, WriterOk;
    if s.writers[w].call.Changeset? {
      ReadsForChangeset(s, w);
    } else {
      ReadsForMerge(s, w);
    }
  }

  lemma ReadsForChangeset(s: State, w: WriterId)
    requires Inv(s) && Enabled(s, ReadTip(w)) && s.writers[w].call.Changeset?
    ensures Inv(Apply(s, ReadTip(w)))
  {
    hide Script, Ancestor, WellFormed, OutcomeOk;
    assert WriterOk(s.store, s.hist, w, s.writers[w]);
    NotesRead(s, Apply(s, ReadTip(w)), w, TipRead(s.head));
  }

  lemma ReadsForMerge(s: State, w: WriterId)
    requires Inv(s) && Enabled(s, ReadTip(w)) && s.writers[w].call.MergeBack?
    ensures Inv(Apply(s, ReadTip(w)))
  {
    hide Script, WellFormed;
    var s' := Apply(s, ReadTip(w));
    var writer := s.writers[w];
    assert WriterOk(s.store, s.hist, w, writer);
    assert PcIds(s.store, writer.pc);
    if s.head.None? {
      Leaves(s, s', w, Rejected(Other(MissingBranch)));
    } else {
      NotesRead(s, s', w, s'.writers[w].pc);
    }
  }

  lemma NotesRead(s: State, s': State, w: WriterId, pc: Pc)
    requires Inv(s) && At(s, w) && (s.writers[w].pc.Entered? || s.writers[w].pc.WipRead?) && Critical(pc)
    requires s' == NoteRead(s, w, pc) && PcIds(s.store, pc)
    requires PcOk(s.store, s.hist, w, s'.writers[w])
    ensures Inv(s')
  {
    hide Script, Ancestor, WellFormed;
    assert WriterOk(s.store, s.hist, w, s.writers[w]);
    WriterReads(s.store, s.hist, w, s.writers[w], pc);
    InvAfterInnerMove(s, s', w, s'.writers[w]);
  }

  /** A writer that has read its tip goes on to the per-path checks. */
  lemma WriterChecks(store: Store, hist: seq<Entry>, w: WriterId, writer: Writer)
    requires HistOk(store, hist) && WriterOk(store, hist, w, writer) && writer.pc.TipRead?
    ensures writer.landed.None? && WriterOk(store, hist, w, writer.(pc := Checking(writer.pc.tip, 0)))
  {
    hide Script, Ancestor, WellFormed;
    RacesIgnorePc(hist, writer, writer.(pc := Checking(writer.pc.tip, 0)));
  }

  lemma StepCheckStatus(s: State, w: WriterId)
    requires Inv(s) && Enabled(s, CheckStatus(w))
    ensures Inv(Apply(s, CheckStatus(w)))
  {
    hide Script, Ancestor, WellFormed, WriterOk, OwnersOk, FansOk;
    var s' := Apply(s, CheckStatus(w));
    assert WriterOk(s.store, s.hist, w, s.writers[w]);
    assert PcIds(s.store, s.writers[w].pc);
    WriterChecks(s.store, s.hist, w, s.writers[w]);
    if s'.writers[w].pc.Leaving? {
      Leaves(s, s', w, Rejected(Other(StagedChanges)));
    } else {
      InvAfterInnerMove(s, s', w, s'.writers[w]);
    }
  }

  lemma StepCheckPath(s: State, w: WriterId)
    requires Inv(s) && Enabled(s, CheckPath(w))
    ensures Inv(Apply(s, CheckPath(w)))
  {
    hide Script, Ancestor, WellFormed;
    var s' := Apply(s, CheckPath(w));
    assert WriterOk(s.store, s.hist, w, s.writers[w]);
    assert PcIds(s.store, s.writers[w].pc);
    if s'.writers[w].pc.Leaving? {
      Leaves(s, s', w, s'.writers[w].pc.outcome);
    } else {
      InvAfterInnerMove(s, s', w, s'.writers[w]);
    }
  }

  lemma StepBuildCommit(s: State, w: WriterId)
    requires Inv(s) && Enabled(s, BuildCommit(w))
    ensures Inv(Apply(s, BuildCommit(w)))
  {
    hide Script, Ancestor, WellFormed;
    var writer := s.writers[w];
    var s' := Apply(s, BuildCommit(w));
    assert WriterOk(s.store, s.hist, w, writer);
    assert PcIds(s.store, writer.pc);
    var tip := writer.pc.tip;
    var attempt := Try(TreeOf(s.store, tip), writer.call.plan);
    assert LastAttempt(s.store, s.hist, writer, attempt);
    if attempt.Built? {
      BuiltCommitOk(s, w, attempt.tree);
    } else {
      Leaves(s, s', w, s'.writers[w].pc.outcome);
    }
  }

  lemma WriterBuilds(store: Store, hist: seq<Entry>, w: WriterId, writer: Writer, tree: Tree)
    requires HistOk(store, hist) && WriterOk(store, hist, w, writer) && writer.pc.Checking?
    requires PcIds(store, writer.pc) && Try(TreeOf(store, writer.pc.tip), writer.call.plan) == Built(tree)
    ensures var store' := store + [Commit(tree, TipParents(writer.pc.tip))];
            HistOk(store', hist) && WriterOk(store', hist, w, writer.(pc := Ready(writer.pc.tip, |store|)))
  {
    hide Script, Try;
    var tip := writer.pc.tip;
    var c := Commit(tree, TipParents(tip));
    var store' := store + [c];
    AppendGrowth(store, hist, c);
    WriterKept(store, hist, store', hist, w, writer);
    if tip.Some? {
      assert store'[tip.value] == store[tip.value];
    }
    assert Sound(store', writer.call, tip, |store|);
    WriterReadies(store', hist, w, writer, |store|);
  }

  lemma BuiltCommitOk(s: State, w: WriterId, tree: Tree)
    requires Inv(s) && Enabled(s, BuildCommit(w))
    requires Try(TreeOf(s.store, s.writers[w].pc.tip), s.writers[w].call.plan) == Built(tree)
    ensures Inv(Apply(s, BuildCommit(w)))
  {
    hide WriterOk, Script, Ancestor, WellFormed, Try;
    var writer := s.writers[w];
    assert WriterOk(s.store, s.hist, w, writer);
    assert PcIds(s.store, writer.pc);
    WriterBuilds(s.store, s.hist, w, writer, tree);
    InvAfterCommitObject(s, Apply(s, BuildCommit(w)), w, writer.(pc := Ready(writer.pc.tip, |s.store|)),
                         Commit(tree, TipParents(writer.pc.tip)));
  }

  lemma StepBuildMerge(s: State, w: WriterId, merged: Option<Tree>)
    requires Inv(s) && Enabled(s, BuildMerge(w, merged))
    ensures Inv(Apply(s, BuildMerge(w, merged)))
  {
    hide Script, Ancestor, WellFormed;
    assert WriterOk(s.store, s.hist, w, s.writers[w]);
    if merged.None? {
      Leaves(s, Apply(s, BuildMerge(w, merged)), w, Rejected(Other(MergeConflict)));
    } else {
      BuiltMergeOk(s, w, merged.value);
    }
  }

  lemma WriterMerges(store: Store, hist: seq<Entry>, w: WriterId, writer: Writer, tree: Tree)
    requires HistOk(store, hist) && WriterOk(store, hist, w, writer) && writer.pc.Merging? && PcIds(store, writer.pc)
    ensures var store' := store + [Commit(tree, [writer.pc.tip.value, writer.pc.wip])];
            HistOk(store', hist) && WriterOk(store', hist, w, writer.(pc := Ready(writer.pc.tip, |store|)))
  {
    hide Script;
    var c := Commit(tree, [writer.pc.tip.value, writer.pc.wip]);
    var store' := store + [c];
    AppendGrowth(store, hist, c);
    WriterKept(store, hist, store', hist, w, writer);
    ParentIsAncestor(store', |store|, 0);
    assert Sound(store', writer.call, writer.pc.tip, |store|);
    WriterReadies(store', hist, w, writer, |store|);
  }

  lemma BuiltMergeOk(s: State, w: WriterId, tree: Tree)
    requires Inv(s) && Enabled(s, BuildMerge(w, Some(tree)))
    ensures Inv(Apply(s, BuildMerge(w, Some(tree))))
  {
    hide WriterOk, Script, Ancestor, WellFormed;
    var writer := s.writers[w];
    assert WriterOk(s.store, s.hist, w, writer);
    assert PcIds(s.store, writer.pc);
    WriterMerges(s.store, s.hist, w, writer, tree);
    InvAfterCommitObject(s, Apply(s, BuildMerge(w, Some(tree))), w, writer.(pc := Ready(writer.pc.tip, |s.store|)),
                         Commit(tree, [writer.pc.tip.value, writer.pc.wip]));
  }

  lemma WriterReadies(store: Store, hist: seq<Entry>, w: WriterId, writer: Writer, commit: CommitId)
    requires HistOk(store, hist) && WriterOk(store, hist, w, writer)
    requires writer.pc.Merging? || writer.pc.Checking?
    requires Sound(store, writer.call, writer.pc.tip, commit)
    ensures WriterOk(store, hist, w, writer.(pc := Ready(writer.pc.tip, commit)))
  {
    hide Script, Ancestor, WellFormed, Sound;
    var after := writer.(pc := Ready(writer.pc.tip, commit));
    assert RacesOk(hist, after);
  }

  lemma MergeLoses(store: Store, hist: seq<Entry>, w: WriterId, writer: Writer)
    requires HistOk(store, hist) && WriterOk(store, hist, w, writer)
    requires writer.pc.Ready? && writer.call.MergeBack?
    ensures OutcomeOk(store, hist, w, writer, Rejected(Concurrency(RefMoved)))
  {
  }

  lemma ReadyNotLanded(store: Store, hist: seq<Entry>, w: WriterId, writer: Writer)
    requires HistOk(store, hist) && WriterOk(store, hist, w, writer) && writer.pc.Ready?
    ensures writer.landed.None?
  {
  }

  lemma StepSwap(s: State, w: WriterId, changed: seq<Path>)
    requires Inv(s) && Enabled(s, Swap(w, changed))
    ensures Inv(Apply(s, Swap(w, changed)))
  {
    hide WriterOk, OutcomeOk, Script, Ancestor, WellFormed;
    var writer := s.writers[w];
    assert WriterOk(s.store, s.hist, w, writer);
    if s.head == writer.pc.tip {
      SwapWins(s, w, changed);
    } else if writer.call.MergeBack? {
      MergeLoses(s.store, s.hist, w, writer);
      Leaves(s, Apply(s, Swap(w, changed)), w, Rejected(Concurrency(RefMoved)));
    } else {
      SwapLoses(s, w, changed);
    }
  }

  lemma SwapLoses(s: State, w: WriterId, changed: seq<Path>)
    requires Inv(s) && Enabled(s, Swap(w, changed)) && s.head != s.writers[w].pc.tip
    requires s.writers[w].call.Changeset?
    ensures Inv(Apply(s, Swap(w, changed)))
  {
    hide WriterOk, Script, Ancestor, WellFormed;
    var writer := s.writers[w];
    assert WriterOk(s.store, s.hist, w, writer);
    WriterLoses(s.store, s.hist, w, writer);
    InvAfterInnerMove(s, Apply(s, Swap(w, changed)), w,
                      writer.(losses := writer.losses + [|s.hist| - 1], pc := AfterLoss(writer.losses + [|s.hist| - 1], writer.call.Budget())));
  }

  lemma SwapWins(s: State, w: WriterId, changed: seq<Path>)
    requires Inv(s) && Enabled(s, Swap(w, changed)) && s.head == s.writers[w].pc.tip
    ensures Inv(Apply(s, Swap(w, changed)))
  {
    hide WriterOk, Script, Ancestor, WellFormed, Covers;
    var writer := s.writers[w];
    assert WriterOk(s.store, s.hist, w, writer);
    assert PcIds(s.store, writer.pc);
    assert s.lock == Some(w);
    SwapCovers(s, w, changed);
    ReadyNotLanded(s.store, s.hist, w, writer);
    WriterLands(s.store, s.hist, w, writer, changed);
    InvAfterMove(s, Apply(s, Swap(w, changed)), w,
                 writer.(pc := Revealing(writer.pc.tip, writer.pc.commit, changed, 0), landed := Some(|s.hist| - 1)));
  }

  /** What a compare-and-swap is about to reveal covers every path its commit changes. */
  lemma SwapCovers(s: State, w: WriterId, changed: seq<Path>)
    requires Inv(s) && Enabled(s, Swap(w, changed))
    ensures Covers(s.store, s.writers[w].pc.tip, s.writers[w].pc.commit, changed)
  {
    var writer := s.writers[w];
    assert WriterOk(s.store, s.hist, w, writer);
    assert PcIds(s.store, writer.pc);
    if writer.call.Changeset? {
      AttemptMeaning(TreeOf(s.store, writer.pc.tip), writer.call.plan);
    }
  }

  lemma WriterReveals(store: Store, hist: seq<Entry>, w: WriterId, writer: Writer)
    requires HistOk(store, hist) && WriterOk(store, hist, w, writer)
    requires writer.pc.Revealing? && writer.pc.done < |Script(store[writer.pc.commit].tree, writer.pc.paths)|
    ensures WriterOk(store, hist, w, writer.(pc := writer.pc.(done := writer.pc.done + 1)))
  {
    var after := writer.(pc := writer.pc.(done := writer.pc.done + 1));
    assert Landed(store, hist, w, after, writer.pc.commit);
    assert RacesOk(hist, after);
  }


  lemma StepReveal(s: State, w: WriterId)
    requires Inv(s) && Enabled(s, Reveal(w))
    ensures Inv(Apply(s, Reveal(w)))
  {
    hide Script, WriterOk, Ancestor, WellFormed;
    assert WriterOk(s.store, s.hist, w, s.writers[w]);
    WriterReveals(s.store, s.hist, w, s.writers[w]);
    InvAfterInnerMove(s, Apply(s, Reveal(w)), w, s.writers[w].(pc := s.writers[w].pc.(done := s.writers[w].pc.done + 1)));
  }

  lemma StepAnnounce(s: State, w: WriterId)
    requires Inv(s) && Enabled(s, Announce(w))
    ensures Inv(Apply(s, Announce(w)))
  {
    hide Script, Ancestor, WellFormed;
    var s' := Apply(s, Announce(w));
    assert WriterOk(s.store, s.hist, w, s.writers[w]);
    assert PcIds(s.store, s.writers[w].pc);
    Leaves(s, s', w, s'.writers[w].pc.outcome);
  }

  lemma WriterFinishes(store: Store, hist: seq<Entry>, w: WriterId, writer: Writer)
    requires HistOk(store, hist) && WriterOk(store, hist, w, writer) && writer.pc.Leaving?
    ensures WriterOk(store, hist, w, writer.(pc := Finished(writer.pc.outcome)))
  {
    hide Script, Ancestor, WellFormed;
    var after := writer.(pc := Finished(writer.pc.outcome));
    OutcomeIgnoresPc(store, hist, w, writer, after, writer.pc.outcome);
    assert RacesOk(hist, after);
  }

  lemma StepRelease(s: State, w: WriterId)
    requires Inv(s) && Enabled(s, Release(w))
    ensures Inv(Apply(s, Release(w)))
  {
    hide WriterOk, Script, Ancestor, WellFormed;
    assert WriterOk(s.store, s.hist, w, s.writers[w]);
    assert s.lock == Some(w);
    WriterFinishes(s.store, s.hist, w, s.writers[w]);
    InvAfterQuietMove(s, Apply(s, Release(w)), w, s.writers[w].(pc := Finished(s.writers[w].pc.outcome)));
  }

  lemma StepFail(s: State, w: WriterId)
    requires Inv(s) && Enabled(s, Fail(w))
    ensures Inv(Apply(s, Fail(w)))
  {
    hide Script, Ancestor, WellFormed;
    assert WriterOk(s.store, s.hist, w, s.writers[w]);
    Leaves(s, Apply(s, Fail(w)), w, Rejected(Other(IoFailure)));
  }

  lemma WriterCrashes(store: Store, hist: seq<Entry>, w: WriterId, writer: Writer)
    requires HistOk(store, hist) && WriterOk(store, hist, w, writer) && Critical(writer.pc)
    ensures WriterOk(store, hist, w, writer.(pc := Crashed))
  {
    hide Script, Ancestor, WellFormed;
    var after := writer.(pc := Crashed);
    assert RacesOk(hist, after);
    if writer.landed.Some? {
      LandedCommit(store, hist, w, writer);
      var c :| Landed(store, hist, w, writer, c);
      assert Landed(store, hist, w, after, c);
    }
  }

  lemma StepCrash(s: State, w: WriterId)
    requires Inv(s) && Enabled(s, Crash(w))
    ensures Inv(Apply(s, Crash(w)))
  {
    hide WriterOk, Script, Ancestor, WellFormed;
    assert WriterOk(s.store, s.hist, w, s.writers[w]);
    assert s.lock == Some(w);
    WriterCrashes(s.store, s.hist, w, s.writers[w]);
    InvAfterQuietMove(s, Apply(s, Crash(w)), w, s.writers[w].(pc := Crashed));
  }

  lemma LandedCommit(store: Store, hist: seq<Entry>, w: WriterId, writer: Writer)
    requires HistOk(store, hist) && WriterOk(store, hist, w, writer) && writer.landed.Some?
    ensures exists c :: Landed(store, hist, w, writer, c)
  {
    match writer.pc
    case Revealing(_, c, _, _) => assert Landed(store, hist, w, writer, c);
    case Leaving(Committed(c)) => assert Landed(store, hist, w, writer, c);
    case Leaving(Merged(c)) => assert Landed(store, hist, w, writer, c);
    case Finished(Committed(c)) => assert Landed(store, hist, w, writer, c);
    case Finished(Merged(c)) => assert Landed(store, hist, w, writer, c);
    case _ =>
  }

  // ---------------------------------------------------------------------------------------------
  // Steps taken by nobody in the list of writers
  // ---------------------------------------------------------------------------------------------

  lemma InvAfterOutsideMove(s: State, s': State)
    requires Inv(s) && s'.writers == s.writers && s'.lock == s.lock && ValidIds(s')
    requires Grows(s.store, s.hist, s'.store, s'.hist)
    requires forall j :: |s.hist| <= j < |s'.hist| ==> s'.hist[j].mover == Outside
    requires s'.hist[|s'.hist| - 1].tip == s'.head && FansOk(s')
    ensures Inv(s')
  {
    hide WriterOk, Script, Ancestor, WellFormed;
    forall v | 0 <= v < |s'.writers| ensures WriterOk(s'.store, s'.hist, v, s'.writers[v]) {
      assert WriterOk(s.store, s.hist, v, s.writers[v]);
      WriterKept(s.store, s.hist, s'.store, s'.hist, v, s.writers[v]);
    }
    forall j: int, v: nat | 0 <= j < |s'.hist| && s'.hist[j].mover == By(v)
      ensures 0 < j && v < |s'.writers| && s'.writers[v].landed == Some(j - 1)
    {
      assert s.hist[j] == s'.hist[j];
    }
  }

  lemma StepInterfere(s: State, added: seq<Commit>, head: Tip, disk: Disk)
    requires Inv(s) && Enabled(s, Interfere(added, head, disk))
    ensures Inv(Apply(s, Interfere(added, head, disk)))
  {
    hide Script, Ancestor, WriterOk;
    var s' := Apply(s, Interfere(added, head, disk));
    assert s'.store[..|s.store|] == s.store && s'.hist[..|s.hist|] == s.hist;
    FansKept(s, s'.store);
    assert HistOk(s'.store, s'.hist);
    assert Grows(s.store, s.hist, s'.store, s'.hist);
    PcIdsKept(s, s'.store);
    InvAfterOutsideMove(s, s');
  }

  lemma PcIdsKept(s: State, store': Store)
    requires ValidIds(s) && |s.store| <= |store'|
    ensures forall w :: 0 <= w < |s.writers| ==> PcIds(store', s.writers[w].pc)
  {
    forall w | 0 <= w < |s.writers| ensures PcIds(store', s.writers[w].pc) {
      assert PcIds(s.store, s.writers[w].pc);
    }
  }

  lemma StepCommitToFan(s: State, f: FanId, tree: Tree)
    requires Inv(s) && Enabled(s, CommitToFan(f, tree))
    ensures Inv(Apply(s, CommitToFan(f, tree)))
  {
    hide Script, WriterOk;
    var s' := Apply(s, CommitToFan(f, tree));
    var fan := s.fans[f];
    AppendGrowth(s.store, s.hist, Commit(tree, [fan.tip]));
    FansKept(s, s'.store);
    ParentIsAncestor(s'.store, |s.store|, 0);
    AncestorTransitive(s'.store, fan.fork, fan.tip, |s.store|);
    PcIdsKept(s, s'.store);
    InvAfterOutsideMove(s, s');
  }

  lemma StepOtherOutside(s: State, step: Step)
    requires Inv(s) && Enabled(s, step)
    requires step.OpenFan? || step.CloseFan? || step.Resync?
    ensures Inv(Apply(s, step))
  {
    hide Script, WriterOk;
    var s' := Apply(s, step);
    assert s'.hist[..|s.hist|] == s.hist && s'.store[..|s.store|] == s.store;
    InvAfterOutsideMove(s, s');
  }

  /** The invariant is inductive: every step of every writer and every outside process keeps it. */
  lemma InvStep(s: State, step: Step)
    requires Inv(s) && Enabled(s, step)
    ensures Inv(Apply(s, step))
  {
    hide WriterOk, Script, Ancestor, WellFormed, LockOk, OwnersOk, FansOk;
    match step
    case Refuse(w) => StepRefuse(s, w);
    case Acquire(w) => StepAcquire(s, w);
    case ReadWip(w) => StepReadWip(s, w);
    case ReadTip(w) => StepReadTip(s, w);
    case CheckStatus(w) => StepCheckStatus(s, w);
    case CheckPath(w) => StepCheckPath(s, w);
    case BuildCommit(w) => StepBuildCommit(s, w);
    case BuildMerge(w, merged) => StepBuildMerge(s, w, merged);
    case Swap(w, changed) => StepSwap(s, w, changed);
    case Reveal(w) => StepReveal(s, w);
    case Announce(w) => StepAnnounce(s, w);
    case Release(w) => StepRelease(s, w);
    case Fail(w) => StepFail(s, w);
    case Crash(w) => StepCrash(s, w);
    case Interfere(added, head, disk) => StepInterfere(s, added, head, disk);
    case OpenFan(_) => StepOtherOutside(s, step);
    case CommitToFan(f, tree) => StepCommitToFan(s, f, tree);
    case CloseFan(_) => StepOtherOutside(s, step);
    case Resync(_) => StepOtherOutside(s, step);
  }

  lemma InitialInv(s: State)
    requires Initial(s)
    ensures Inv(s)
  {
  }

  lemma {:induction false} SegmentInv(states: seq<State>, steps: seq<Step>, i: nat)
    requires Segment(states, steps) && Inv(states[0]) && i < |states|
    ensures Inv(states[i])
  {
    hide Inv, Apply, Enabled, ValidIds;
    if i > 0 {
      SegmentInv(states, steps, i - 1);
      assert Next(states[i - 1], steps[i - 1], states[i]);
      InvStep(states[i - 1], steps[i - 1]);
    }
  }

  /** Every state of every run satisfies the invariant. */
  lemma RunInv(states: seq<State>, steps: seq<Step>)
    requires Run(states, steps)
    ensures forall i :: 0 <= i < |states| ==> Inv(states[i])
  {
    InitialInv(states[0]);
    forall i | 0 <= i < |states| ensures Inv(states[i]) {
      SegmentInv(states, steps, i);
    }
  }

  /** A step adds at most one history entry, and who added it is on record. */
  lemma HistoryGrowth(s: State, step: Step)
    requires ValidIds(s) && s.hist[|s.hist| - 1].tip == s.head && Enabled(s, step)
    ensures var s' := Apply(s, step);
            && Extends(s.store, s'.store)
            && |s.hist| <= |s'.hist| <= |s.hist| + 1 && s'.hist[..|s.hist|] == s.hist
            && (|s'.hist| > |s.hist| ==>
                  && s.hist[|s.hist| - 1].tip == s.head
                  && (if step.Interfere? then s'.store == s.store + step.added && s'.hist[|s.hist|].tip == step.head
                      else s'.hist[|s.hist|].mover.By?))
  {
    hide Script, WellFormed, RunDisk, ApplyDiskStep, Try, FirstRepeat, PcIds, ListsDiff, ScriptOf, CleanUp, Problem, FilesOf, ToReveal;
  }
}
