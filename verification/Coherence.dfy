/** Between writes the working tree shows HEAD. */
module Coherence {
  import opened Wrappers
  import opened ChangePlans
  import opened ObjectStore
  import opened Attempts
  import opened Materialization
  import opened WriteProtocol
  import opened WriteInvariants
  import opened WriteSteps

  // In every run of TurboVault writers without failures or outside edits, whenever the commit lock is
  // free the index is HEAD's tree and every file of HEAD is on disk with HEAD's bytes.

  /** The steps of TurboVault itself when nothing fails: changesets, merge-backs and fan-outs. */
  predicate Orderly(step: Step) {
    !step.Interfere? && !step.Fail? && !step.Crash? && !step.Resync?
  }

  ghost predicate ShowsHead(s: State)
    requires ValidTip(s.store, s.head)
  {
    Coherent(s.disk, FilesOf(s.store, s.head))
  }

  /** The disk is what `done` steps of revealing `commit` make of a disk that showed `tip`. */
  ghost predicate PartWay(s: State, tip: Tip, commit: CommitId, paths: seq<Path>, done: nat)
    requires ValidTip(s.store, tip) && commit < |s.store|
  {
    && s.head == Some(commit)
    && done <= |Script(s.store[commit].tree, paths)|
    && exists before :: RevealedFrom(s, before, tip, commit, paths, done)
  }

  ghost predicate RevealedFrom(s: State, before: Disk, tip: Tip, commit: CommitId, paths: seq<Path>, done: nat)
    requires ValidTip(s.store, tip) && commit < |s.store| && done <= |Script(s.store[commit].tree, paths)|
  {
    && Coherent(before, FilesOf(s.store, tip))
    && s.disk == RunDisk(before, Script(s.store[commit].tree, paths)[..done])
  }

  predicate IsRevealing(s: State) {
    s.lock.Some? && s.lock.value < |s.writers| && s.writers[s.lock.value].pc.Revealing?
  }

  ghost predicate Tidy(s: State) {
    ValidIds(s) &&
    if IsRevealing(s) then
      var pc := s.writers[s.lock.value].pc;
      assert PcIds(s.store, pc);
      PartWay(s, pc.tip, pc.commit, pc.paths, pc.done)
    else ShowsHead(s)
  }

  /** Appending commits changes what no earlier commit shows. */
  lemma FilesKept(store: Store, later: Store, tip: Tip)
    requires ValidTip(store, tip) && Extends(store, later)
    ensures ValidTip(later, tip) && FilesOf(later, tip) == FilesOf(store, tip)
  {
    if tip.Some? {
      assert later[tip.value] == store[tip.value];
    }
  }

  lemma TidySwap(s: State, w: WriterId, changed: seq<Path>)
    requires Inv(s) && Tidy(s) && Enabled(s, Swap(w, changed))
    requires ValidIds(Apply(s, Swap(w, changed)))
    ensures Tidy(Apply(s, Swap(w, changed)))
  {
    hide WriterOk, Ancestor, WellFormed, Coherent, Script, ToReveal;
    assert Critical(s.writers[w].pc);
    assert s.lock == Some(w);
    var s' := Apply(s, Swap(w, changed));
    var pc := s.writers[w].pc;
    assert PcIds(s.store, pc);
    if s.head == pc.tip {
      NothingRevealedYet(s, s', pc.tip, pc.commit, changed);
    }
  }

  lemma NothingRevealedYet(s: State, s': State, tip: Tip, commit: CommitId, paths: seq<Path>)
    requires s'.store == s.store && s'.disk == s.disk && s'.head == Some(commit) && s.head == tip
    requires ValidTip(s.store, tip) && commit < |s.store|
    requires ShowsHead(s)
    ensures PartWay(s', tip, commit, paths, 0)
  {
    assert Script(s.store[commit].tree, paths)[..0] == [];
    assert RevealedFrom(s', s.disk, tip, commit, paths, 0);
  }

  lemma TidyReveal(s: State, w: WriterId)
    requires Inv(s) && Tidy(s) && Enabled(s, Reveal(w)) && ValidIds(Apply(s, Reveal(w)))
    ensures Tidy(Apply(s, Reveal(w)))
  {
    hide WriterOk, Ancestor, WellFormed, Coherent, Script, RunDisk, ApplyDiskStep;
    assert s.lock == Some(w);
    var pc := s.writers[w].pc;
    assert PcIds(s.store, pc);
    OneMoreStep(s, Apply(s, Reveal(w)), pc.tip, pc.commit, pc.paths, pc.done);
  }

  lemma OneMoreStep(s: State, s': State, tip: Tip, commit: CommitId, paths: seq<Path>, done: nat)
    requires ValidTip(s.store, tip) && commit < |s.store| && PartWay(s, tip, commit, paths, done)
    requires done < |Script(s.store[commit].tree, paths)|
    requires s'.store == s.store && s'.head == s.head
    requires s'.disk == ApplyDiskStep(s.disk, Script(s.store[commit].tree, paths)[done])
    ensures PartWay(s', tip, commit, paths, done + 1)
  {
    hide Coherent, Script, ApplyDiskStep;
    var script := Script(s.store[commit].tree, paths);
    var before :| RevealedFrom(s, before, tip, commit, paths, done);
    assert script[..done + 1][..done] == script[..done];
    assert RevealedFrom(s', before, tip, commit, paths, done + 1);
  }

  lemma TidyAnnounce(s: State, w: WriterId)
    requires Inv(s) && Tidy(s) && Enabled(s, Announce(w)) && ValidIds(Apply(s, Announce(w)))
    ensures Tidy(Apply(s, Announce(w)))
  {
    hide WriterOk, Ancestor, WellFormed, Coherent, Script, RunDisk, ApplyDiskStep, Covers;
    assert s.lock == Some(w);
    var pc := s.writers[w].pc;
    assert PcIds(s.store, pc);
    assert WriterOk(s.store, s.hist, w, s.writers[w]);
    RevealingCovers(s.store, s.hist, w, s.writers[w]);
    AllRevealed(s, pc.tip, pc.commit, pc.paths);
  }

  lemma RevealingCovers(store: Store, hist: seq<Entry>, w: WriterId, writer: Writer)
    requires HistOk(store, hist) && WriterOk(store, hist, w, writer) && writer.pc.Revealing?
    ensures Covers(store, writer.pc.tip, writer.pc.commit, writer.pc.paths)
  {
  }

  lemma AllRevealed(s: State, tip: Tip, commit: CommitId, paths: seq<Path>)
    requires WellFormed(s.store) && Covers(s.store, tip, commit, paths)
    requires PartWay(s, tip, commit, paths, |Script(s.store[commit].tree, paths)|)
    ensures ValidTip(s.store, s.head) && ShowsHead(s)
  {
    var script := Script(s.store[commit].tree, paths);
    hide Script, RunDisk, Coherent, AgreeOff;
    assert script[..|script|] == script;
    var before :| RevealedFrom(s, before, tip, commit, paths, |script|);
    MaterializeKeepsCoherence(before, FilesOf(s.store, tip), s.store[commit].tree, paths);
  }

  /** The other orderly steps leave branch and disk alone and start or end no reveal. */
  lemma TidyElsewhere(s: State, step: Step)
    requires Inv(s) && Tidy(s) && Enabled(s, step) && Orderly(step) && ValidIds(Apply(s, step))
    requires !step.Swap? && !step.Reveal? && !step.Announce?
    ensures Tidy(Apply(s, step))
  {
    hide Coherent, RunDisk, PartWay;
    var s' := Apply(s, step);
    SameBranchAndDisk(s, step);
    FilesKept(s.store, s'.store, s.head);
    if IsRevealing(s) {
      var pc := s.writers[s.lock.value].pc;
      assert PcIds(s.store, pc);
      FilesKept(s.store, s'.store, pc.tip);
      PartWayKept(s, s', pc.tip, pc.commit, pc.paths, pc.done);
    }
  }

  lemma PartWayKept(s: State, s': State, tip: Tip, commit: CommitId, paths: seq<Path>, done: nat)
    requires ValidTip(s.store, tip) && commit < |s.store| && PartWay(s, tip, commit, paths, done)
    requires Extends(s.store, s'.store) && s'.head == s.head && s'.disk == s.disk
    ensures ValidTip(s'.store, tip) && commit < |s'.store| && PartWay(s', tip, commit, paths, done)
  {
    FilesKept(s.store, s'.store, tip);
    assert s'.store[commit] == s.store[commit];
    var before :| RevealedFrom(s, before, tip, commit, paths, done);
    assert RevealedFrom(s', before, tip, commit, paths, done);
  }

  lemma SameBranchAndDisk(s: State, step: Step)
    requires Inv(s) && Enabled(s, step) && Orderly(step)
    requires !step.Swap? && !step.Reveal? && !step.Announce?
    ensures var s' := Apply(s, step);
            && Extends(s.store, s'.store) && s'.head == s.head && s'.disk == s.disk
            && (IsRevealing(s) ==> s'.lock == s.lock && s'.lock.value < |s'.writers|
                                   && s'.writers[s.lock.value] == s.writers[s.lock.value])
            && (!IsRevealing(s) ==> !IsRevealing(s'))
  {
    hide Script, WellFormed, WriterOk, RunDisk, ApplyDiskStep, Try, FirstRepeat, PcIds, ListsDiff, ScriptOf, CleanUp, Problem,
         FilesOf, ToReveal, Ancestor, OwnersOk;
    if s.lock.Some? && s.lock.value < |s.writers| {
      assert Critical(s.writers[s.lock.value].pc);
    }
  }

  lemma TidyStep(s: State, step: Step)
    requires Inv(s) && Tidy(s) && Enabled(s, step) && Orderly(step)
    ensures Tidy(Apply(s, step))
  {
    hide WriterOk, Apply, Tidy, Enabled;
    InvStep(s, step);
    match step
    case Swap(w, changed) => TidySwap(s, w, changed);
    case Reveal(w) => TidyReveal(s, w);
    case Announce(w) => TidyAnnounce(s, w);
    case _ => TidyElsewhere(s, step);
  }

  lemma {:induction false} TidyAlong(states: seq<State>, steps: seq<Step>, n: nat)
    requires Run(states, steps) && n < |states|
    requires forall i :: 0 <= i < |states| ==> Inv(states[i])
    requires forall i :: 0 <= i < |steps| ==> Orderly(steps[i])
    requires ShowsHead(states[0])
    ensures Tidy(states[n])
  {
    hide Apply, Enabled, WriterOk;
    if n > 0 {
      TidyAlong(states, steps, n - 1);
      assert Next(states[n - 1], steps[n - 1], states[n]);
      TidyStep(states[n - 1], steps[n - 1]);
    }
  }

  /** Working-tree coherence over whole runs of TurboVault's own steps. */
  lemma CoherentWhenLockIsFree(states: seq<State>, steps: seq<Step>, i: nat)
    requires Run(states, steps) && i < |states|
    requires forall k :: 0 <= k < |steps| ==> Orderly(steps[k])
    requires ShowsHead(states[0])
    requires states[i].lock.None?
    ensures ValidTip(states[i].store, states[i].head) && ShowsHead(states[i])
  {
    hide Apply, Enabled, WriterOk;
    RunInv(states, steps);
    TidyAlong(states, steps, i);
  }
}
