/**
 * Temporary files. A path is written through a temporary file that is renamed into place; if the
 * rename fails the file is removed again. So only a process that dies while revealing leaves one.
 */
module Leftovers {
  import opened Wrappers
  import opened ChangePlans
  import opened ObjectStore
  import opened Attempts
  import opened Materialization
  import opened WriteProtocol
  import opened WriteInvariants
  import opened WriteSteps

  /** The temporary file that exists after `done` steps: one that is written but not yet renamed. */
  function Pending(script: seq<DiskStep>, done: nat): seq<Content>
    requires done <= |script|
  {
    if done > 0 && script[done - 1].WriteTemp? then [script[done - 1].content] else []
  }

  /** Each temporary file is renamed by the very next step, and nothing else is. */
  ghost predicate Paired(steps: seq<DiskStep>) {
    && (forall k :: 0 <= k < |steps| && steps[k].WriteTemp? ==> k + 1 < |steps| && steps[k + 1].RenameTemp?)
    && (forall k :: 0 <= k < |steps| && steps[k].RenameTemp? ==> 0 < k && steps[k - 1].WriteTemp?)
  }

  lemma PairedConcat(a: seq<DiskStep>, b: seq<DiskStep>)
    requires Paired(a) && Paired(b)
    ensures Paired(a + b)
  {
    var s := a + b;
    forall k | 0 <= k < |s| && s[k].WriteTemp? ensures k + 1 < |s| && s[k + 1].RenameTemp? {
      assert k < |a| ==> s[k] == a[k] && s[k + 1] == a[k + 1];
      assert k >= |a| ==> s[k] == b[k - |a|] && k + 1 < |s| && s[k + 1] == b[k + 1 - |a|];
    }
    forall k | 0 <= k < |s| && s[k].RenameTemp? ensures 0 < k && s[k - 1].WriteTemp? {
      assert k < |a| ==> s[k] == a[k] && s[k - 1] == a[k - 1];
      assert k >= |a| ==> s[k] == b[k - |a|] && s[k - 1] == b[k - 1 - |a|];
    }
  }

  lemma {:induction false} FileStepsPaired(tree: Tree, paths: seq<Path>)
    ensures Paired(FileSteps(tree, paths))
  {
    if paths != [] {
      FileStepsPaired(tree, paths[..|paths| - 1]);
      PairedConcat(FileSteps(tree, paths[..|paths| - 1]), PathSteps(tree, paths[|paths| - 1]));
    }
  }

  lemma ScriptPaired(tree: Tree, paths: seq<Path>)
    ensures Paired(Script(tree, paths)) && Script(tree, paths) != [] && !Script(tree, paths)[|Script(tree, paths)| - 1].WriteTemp?
  {
    FileStepsPaired(tree, paths);
    PairedConcat(FileSteps(tree, paths), [WriteIndex(tree)]);
  }

  /** One step of a script takes the disk from its pending files to the next step's. */
  lemma StepMovesPending(disk: Disk, script: seq<DiskStep>, done: nat)
    requires Paired(script) && done < |script| && disk.temps == Pending(script, done)
    ensures ApplyDiskStep(disk, script[done]).temps == Pending(script, done + 1)
    ensures !script[done].RenameTemp? ==> disk.temps == []
    ensures script[done].RenameTemp? ==> |disk.temps| == 1
  {
    assert script[done].RenameTemp? ==> done > 0 && script[done - 1].WriteTemp?;
    assert done > 0 && script[done - 1].WriteTemp? ==> script[done].RenameTemp?;
  }

  /** Some writer is revealing: it holds the lock. */
  predicate Revealer(s: State, w: WriterId) {
    s.lock == Some(w) && At(s, w) && s.writers[w].pc.Revealing?
  }

  /** The files left are those of the reveal under way; with none under way there are none. */
  ghost predicate NoneLeft(s: State) {
    && ValidIds(s)
    && if s.lock.Some? && Revealer(s, s.lock.value)
       then
         var w := s.lock.value;
         s.writers[w].pc.done <= |ScriptOf(s, w)| && s.disk.temps == Pending(ScriptOf(s, w), s.writers[w].pc.done)
       else s.disk.temps == []
  }

  /** Nobody dies while revealing, and outside processes neither make nor remove such files. */
  predicate Survives(s: State, step: Step) {
    && (step.Interfere? ==> step.disk.temps == s.disk.temps)
    && (step.Crash? ==> At(s, step.w) && !s.writers[step.w].pc.Revealing?)
  }

  lemma HoldsLock(s: State, w: WriterId)
    requires Inv(s) && At(s, w) && s.writers[w].pc.Revealing?
    ensures s.lock == Some(w)
  {
  }

  lemma RevealMoves(s: State, w: WriterId)
    requires Inv(s) && NoneLeft(s) && Enabled(s, Reveal(w)) && ValidIds(Apply(s, Reveal(w)))
    ensures NoneLeft(Apply(s, Reveal(w)))
  {
    hide Inv, Script, WellFormed, ApplyDiskStep, Pending, Paired;
    HoldsLock(s, w);
    ScriptPaired(s.store[s.writers[w].pc.commit].tree, s.writers[w].pc.paths);
    StepMovesPending(s.disk, ScriptOf(s, w), s.writers[w].pc.done);
    assert ScriptOf(Apply(s, Reveal(w)), w) == ScriptOf(s, w);
  }

  lemma AnnounceMoves(s: State, w: WriterId)
    requires Inv(s) && NoneLeft(s) && Enabled(s, Announce(w)) && ValidIds(Apply(s, Announce(w)))
    ensures NoneLeft(Apply(s, Announce(w)))
  {
    hide Inv, Script, WellFormed, Paired;
    HoldsLock(s, w);
    ScriptPaired(s.store[s.writers[w].pc.commit].tree, s.writers[w].pc.paths);
  }

  /** A failure removes the file whose rename failed; at any other point there is none to remove. */
  lemma FailMoves(s: State, w: WriterId)
    requires Inv(s) && NoneLeft(s) && Enabled(s, Fail(w)) && ValidIds(Apply(s, Fail(w)))
    ensures NoneLeft(Apply(s, Fail(w)))
  {
    hide WriterOk, OwnersOk, FansOk, HistOk, Script, WellFormed, Pending, Paired, ApplyDiskStep;
    assert s.lock == Some(w);
    if s.writers[w].pc.Revealing? {
      var script, done := ScriptOf(s, w), s.writers[w].pc.done;
      ScriptPaired(s.store[s.writers[w].pc.commit].tree, s.writers[w].pc.paths);
      if done < |script| {
        StepMovesPending(s.disk, script, done);
      } else {
        PendingAtEnd(script);
      }
    }
  }

  lemma PendingAtEnd(script: seq<DiskStep>)
    requires script != [] && !script[|script| - 1].WriteTemp?
    ensures Pending(script, |script|) == []
  {
  }

  lemma SwapMoves(s: State, w: WriterId, changed: seq<Path>)
    requires Inv(s) && NoneLeft(s) && Enabled(s, Swap(w, changed)) && ValidIds(Apply(s, Swap(w, changed)))
    ensures NoneLeft(Apply(s, Swap(w, changed)))
  {
    hide WriterOk, OwnersOk, FansOk, HistOk, Script, WellFormed, ToReveal, ListsDiff;
    assert s.lock == Some(w);
  }

  lemma ResyncMoves(s: State, paths: seq<Path>)
    requires Inv(s) && NoneLeft(s) && Enabled(s, Resync(paths)) && ValidIds(Apply(s, Resync(paths)))
    ensures NoneLeft(Apply(s, Resync(paths)))
  {
    hide Inv, Script, RunDisk, WellFormed, Pending;
    if s.head.Some? {
      MaterializeShows(s.disk, s.store[s.head.value].tree, paths);
    }
  }

  predicate TouchesTemps(step: Step) {
    step.Reveal? || step.Announce? || step.Fail? || step.Swap? || step.Resync?
  }

  /** Any other step leaves the files, and whether a reveal is under way. */
  lemma OthersLeaveTemps(s: State, step: Step)
    requires Inv(s) && Enabled(s, step) && Survives(s, step) && !TouchesTemps(step)
    ensures var s' := Apply(s, step);
            && s'.disk.temps == s.disk.temps && Extends(s.store, s'.store)
            && (forall w: nat :: Revealer(s, w) ==> Revealer(s', w) && s'.writers[w] == s.writers[w])
            && (forall w: nat :: Revealer(s', w) ==> Revealer(s, w))
  {
    hide WriterOk, OwnersOk, FansOk, HistOk, Script, WellFormed, Try, ToReveal, ListsDiff, ScriptOf, Problem, PcIds, RunDisk,
         ApplyDiskStep;
    assert Apply(s, step).store[..|s.store|] == s.store;
  }

  lemma NoneLeftStep(s: State, step: Step)
    requires Inv(s) && NoneLeft(s) && Enabled(s, step) && Survives(s, step) && ValidIds(Apply(s, step))
    ensures NoneLeft(Apply(s, step))
  {
    hide Inv, Apply, WellFormed, Script, Pending, Enabled, Survives;
    match step
    case Reveal(w) => RevealMoves(s, w);
    case Announce(w) => AnnounceMoves(s, w);
    case Fail(w) => FailMoves(s, w);
    case Swap(w, changed) => SwapMoves(s, w, changed);
    case Resync(paths) => ResyncMoves(s, paths);
    case _ =>
      OthersLeaveTemps(s, step);
      SameScript(s, Apply(s, step));
  }

  lemma SameScript(s: State, s': State)
    requires ValidIds(s) && ValidIds(s') && Extends(s.store, s'.store) && NoneLeft(s) && s'.disk.temps == s.disk.temps
    requires forall w: nat :: Revealer(s, w) ==> Revealer(s', w) && s'.writers[w] == s.writers[w]
    requires forall w: nat :: Revealer(s', w) ==> Revealer(s, w)
    ensures NoneLeft(s')
  {
    hide WellFormed, Script, Pending;
    if s'.lock.Some? && Revealer(s', s'.lock.value) {
      var w := s'.lock.value;
      assert Revealer(s, w);
      assert s'.store[s.writers[w].pc.commit] == s.store[s.writers[w].pc.commit];
    } else if s.lock.Some? {
      assert !Revealer(s, s.lock.value);
    }
  }

  /**
   * In every run that begins without temporary files, in which nobody dies while revealing and
   * outside processes leave them alone, through I/O failures, lost races and resyncs alike: at most
   * the one file that is about to be renamed exists, and none whenever the lock is free.
   */
  lemma {:induction false} OnlyCrashesLeaveFiles(states: seq<State>, steps: seq<Step>, n: nat)
    requires Run(states, steps) && n < |states| && states[0].disk.temps == []
    requires forall k :: 0 <= k < |steps| ==> Survives(states[k], steps[k])
    ensures NoneLeft(states[n]) && |states[n].disk.temps| <= 1
    ensures states[n].lock.None? ==> states[n].disk.temps == []
  {
    hide Inv, Apply, Enabled, Survives, Script;
    RunInv(states, steps);
    StateValid(states[n]);
    if n > 0 {
      OnlyCrashesLeaveFiles(states, steps, n - 1);
      assert Next(states[n - 1], steps[n - 1], states[n]);
      NoneLeftStep(states[n - 1], steps[n - 1]);
    }
  }

  lemma StateValid(s: State)
    requires Inv(s)
    ensures ValidIds(s)
  {
  }
}
