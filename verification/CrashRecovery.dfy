/** Crashes, and the resync that mends them. */
module CrashRecovery {
  import opened Wrappers
  import opened ChangePlans
  import opened ObjectStore
  import opened Attempts
  import opened Materialization
  import opened WriteProtocol
  import opened WriteInvariants
  import opened WriteSteps
  import opened AtomicWrites
  import opened Coherence

  // A writer that dies after its commit landed but before the working tree caught up leaves an index
  // that differs from HEAD. Until someone resyncs, no changeset gets past that index; a resync of the
  // dead writer's paths ends where the writer would have ended.

  ghost predicate Behind(s: State)
    requires ValidTip(s.store, s.head)
  {
    s.disk.index != FilesOf(s.store, s.head)
  }

  // ---------------------------------------------------------------------------------------------
  // While the index is behind
  // ---------------------------------------------------------------------------------------------

  predicate Refusing(pc: Pc) {
    || pc.Entered? || pc.TipRead?
    || (pc.Leaving? && pc.outcome.Rejected? && pc.outcome.error.Other?)
  }

  /** The index is behind, and no changeset in its critical section has got past the status check. */
  ghost predicate Held(s: State) {
    && ValidIds(s) && Behind(s)
    && forall w :: 0 <= w < |s.writers| ==> HeldBack(s.writers[w])
  }

  predicate HeldBack(writer: Writer) {
    writer.call.Changeset? && Critical(writer.pc) ==> Refusing(writer.pc)
  }

  /** The answers left to a changeset: staged changes, an I/O failure, or a plan refused up front. */
  predicate TurnedAway(plan: ChangePlan, outcome: Outcome) {
    || outcome == Rejected(Other(StagedChanges)) || outcome == Rejected(Other(IoFailure))
    || (Problem(plan).Some? && outcome == Rejected(Other(Problem(plan).value)))
  }

  /** What a changeset that begins while the index is behind can come to. */
  predicate OnTheWayOut(writer: Writer) {
    writer.call.Changeset? &&
    match writer.pc
    case Waiting => true
    case Entered => true
    case TipRead(_) => true
    case Leaving(outcome) => TurnedAway(writer.call.plan, outcome)
    case Finished(outcome) => TurnedAway(writer.call.plan, outcome)
    case Crashed => true
    case _ => false
  }

  /** A changeset's own step, while the index is behind, gets it nowhere and touches nothing. */
  lemma OwnStepHeld(s: State, step: Step, w: WriterId)
    requires ValidIds(s) && Behind(s) && Enabled(s, step) && Actor(step) == Some(w) && At(s, w)
    requires s.writers[w].call.Changeset? && HeldBack(s.writers[w])
    ensures SameVault(s, Apply(s, step)) && At(Apply(s, step), w) && HeldBack(Apply(s, step).writers[w])
    ensures OnTheWayOut(s.writers[w]) ==> OnTheWayOut(Apply(s, step).writers[w])
  {
    hide Script, WellFormed, RunDisk, ApplyDiskStep, Try, PcIds, ListsDiff, ScriptOf, ToReveal, Build, StartMerge, Problem;
  }

  /** Whatever else happens, as long as the index is behind afterwards the changesets are still held. */
  lemma HeldStep(s: State, step: Step)
    requires Held(s) && Enabled(s, step) && ValidIds(Apply(s, step)) && Behind(Apply(s, step))
    ensures Held(Apply(s, step))
  {
    hide Apply, Enabled, Behind, HeldBack;
    var s' := Apply(s, step);
    SameWriters(s, step);
    forall w | 0 <= w < |s'.writers| ensures HeldBack(s'.writers[w]) {
      if Actor(step) != Some(w) {
        OthersStay(s, step, w);
      } else if s.writers[w].call.Changeset? {
        OwnStepHeld(s, step, w);
      } else {
        MergeStaysMerge(s, step, w);
      }
    }
  }

  lemma MergeStaysMerge(s: State, step: Step, w: WriterId)
    requires ValidIds(s) && Enabled(s, step) && Actor(step) == Some(w) && At(s, w) && s.writers[w].call.MergeBack?
    requires At(Apply(s, step), w)
    ensures HeldBack(Apply(s, step).writers[w])
  {
    hide Script, WellFormed, RunDisk, ApplyDiskStep, Try, PcIds, ListsDiff, ScriptOf, CleanUp, ToReveal, Problem;
  }

  /** The index is behind HEAD in every one of the states. */
  ghost predicate StaysBehind(states: seq<State>) {
    forall k :: 0 <= k < |states| ==> ValidTip(states[k].store, states[k].head) && Behind(states[k])
  }

  lemma {:induction false} HeldAlong(states: seq<State>, steps: seq<Step>, n: nat)
    requires Segment(states, steps) && Inv(states[0]) && Held(states[0]) && StaysBehind(states) && n < |states|
    ensures Held(states[n])
  {
    hide Apply, Enabled, Held, Inv, Behind;
    if n > 0 {
      HeldAlong(states, steps, n - 1);
      assert Next(states[n - 1], steps[n - 1], states[n]);
      SegmentInv(states, steps, n);
      InvValid(states[n]);
      HeldStep(states[n - 1], steps[n - 1]);
    }
  }

  lemma InvValid(s: State)
    requires Inv(s)
    ensures ValidIds(s)
  {
  }

  lemma HeldValid(s: State)
    requires Held(s)
    ensures ValidIds(s) && Behind(s) && forall w :: 0 <= w < |s.writers| ==> HeldBack(s.writers[w])
  {
  }

  lemma {:induction false} WayOutAlong(states: seq<State>, steps: seq<Step>, w: WriterId, i: nat, j: nat)
    requires Segment(states, steps) && i <= j < |states|
    requires forall k :: 0 <= k < |states| ==> Held(states[k])
    requires At(states[i], w) && OnTheWayOut(states[i].writers[w])
    ensures At(states[j], w) && OnTheWayOut(states[j].writers[w])
  {
    hide Apply, Enabled, Held, OnTheWayOut, Behind, HeldBack;
    if i < j {
      WayOutAlong(states, steps, w, i, j - 1);
      assert Next(states[j - 1], steps[j - 1], states[j]);
      HeldValid(states[j - 1]);
      if Actor(steps[j - 1]) == Some(w) {
        assert states[j - 1].writers[w].call.Changeset? by {
          WayOutIsChangeset(states[j - 1].writers[w]);
        }
        OwnStepHeld(states[j - 1], steps[j - 1], w);
      } else {
        OthersStay(states[j - 1], steps[j - 1], w);
      }
    }
  }

  lemma WayOutIsChangeset(writer: Writer)
    requires OnTheWayOut(writer)
    ensures writer.call.Changeset?
  {
  }

  /**
   * Along any stretch of any steps, outside moves, resyncs and merge-backs included, in which the
   * index stays behind HEAD: no step of a changeset that had not passed the status check changes
   * branch, index or working tree, and a changeset that begins meanwhile can only be turned away.
   */
  lemma BehindIndexStopsChangesets(states: seq<State>, steps: seq<Step>, w: WriterId, i: nat, j: nat)
    requires Segment(states, steps) && Inv(states[0]) && StaysBehind(states)
    requires forall v :: 0 <= v < |states[0].writers| ==> HeldBack(states[0].writers[v])
    ensures forall k, v: nat :: 0 <= k < |steps| && Actor(steps[k]) == Some(v) && At(states[k], v) && states[k].writers[v].call.Changeset? ==>
              SameVault(states[k], states[k + 1])
    ensures i <= j < |states| && At(states[i], w) && states[i].writers[w].call.Changeset? && states[i].writers[w].pc.Waiting? ==>
              At(states[j], w) && OnTheWayOut(states[j].writers[w])
  {
    hide Apply, Enabled, Held, Inv, Behind, HeldBack;
    assert Held(states[0]) by {
      InvValid(states[0]);
      HeldMeans(states[0]);
    }
    forall k | 0 <= k < |states| ensures Held(states[k]) {
      HeldAlong(states, steps, k);
    }
    forall k, v: nat | 0 <= k < |steps| && Actor(steps[k]) == Some(v) && At(states[k], v) && states[k].writers[v].call.Changeset?
      ensures SameVault(states[k], states[k + 1])
    {
      assert Next(states[k], steps[k], states[k + 1]);
      HeldValid(states[k]);
      OwnStepHeld(states[k], steps[k], v);
    }
    if i <= j < |states| && At(states[i], w) && states[i].writers[w].call.Changeset? && states[i].writers[w].pc.Waiting? {
      WayOutAlong(states, steps, w, i, j);
    }
  }

  lemma HeldMeans(s: State)
    requires ValidIds(s) && Behind(s) && forall w :: 0 <= w < |s.writers| ==> HeldBack(s.writers[w])
    ensures Held(s)
  {
  }

  // ---------------------------------------------------------------------------------------------
  // The crash, and what a resync makes of it
  // ---------------------------------------------------------------------------------------------

  /** A changeset that dies before the index is written leaves it behind, except when it made an empty first commit. */
  lemma CrashLeavesIndexBehind(s: State, w: WriterId, crashed: State)
    requires Inv(s) && Tidy(s) && At(s, w) && s.writers[w].pc.Revealing? && s.writers[w].call.Changeset?
    requires PcIds(s.store, s.writers[w].pc)
    requires s.writers[w].pc.done < |ScriptOf(s, w)|
    requires Next(s, Crash(w), crashed)
    ensures ValidTip(crashed.store, crashed.head) && crashed.lock.None?
    ensures Behind(crashed) <==> s.writers[w].pc.tip.Some? || s.store[s.writers[w].pc.commit].tree != map[]
  {
    hide WriterOk, Ancestor, WellFormed, Script, RunDisk;
    var pc := s.writers[w].pc;
    assert s.lock == Some(w);
    assert WriterOk(s.store, s.hist, w, s.writers[w]);
    LandedTreeDiffers(s.store, s.hist, w, s.writers[w]);
    var before :| RevealedFrom(s, before, pc.tip, pc.commit, pc.paths, pc.done);
    PrefixAgreesOff(before, s.store[pc.commit].tree, pc.paths, pc.done);
  }

  lemma LandedTreeDiffers(store: Store, hist: seq<Entry>, w: WriterId, writer: Writer)
    requires HistOk(store, hist) && WriterOk(store, hist, w, writer)
    requires writer.pc.Revealing? && writer.call.Changeset?
    ensures writer.pc.commit < |store| && ValidTip(store, writer.pc.tip)
    ensures TreeOf(store, writer.pc.tip) != Some(store[writer.pc.commit].tree)
  {
    hide Script, Ancestor, WellFormed, FirstStale, MissingSource;
  }

  /** What the writer would have made of the disk had it gone on. */
  ghost function RunToEnd(s: State, w: WriterId): Disk
    requires At(s, w) && s.writers[w].pc.Revealing? && PcIds(s.store, s.writers[w].pc)
    requires s.writers[w].pc.done <= |ScriptOf(s, w)|
  {
    RunDisk(s.disk, ScriptOf(s, w)[s.writers[w].pc.done..])
  }

  /** The disk is what the reveal steps so far made of some disk, whatever that one showed. */
  ghost predicate RevealedSoFar(s: State, w: WriterId)
    requires At(s, w) && s.writers[w].pc.Revealing? && PcIds(s.store, s.writers[w].pc)
  {
    s.writers[w].pc.done <= |ScriptOf(s, w)| && exists before :: RevealedOn(s, w, before)
  }

  ghost predicate RevealedOn(s: State, w: WriterId, before: Disk)
    requires At(s, w) && s.writers[w].pc.Revealing? && PcIds(s.store, s.writers[w].pc)
    requires s.writers[w].pc.done <= |ScriptOf(s, w)|
  {
    s.disk == RunDisk(before, ScriptOf(s, w)[..s.writers[w].pc.done])
  }

  /** Nobody but the writers rewrites files or index; outside processes may still move the branch. */
  predicate LeavesDisk(s: State, step: Step) {
    !step.Resync? && (step.Interfere? ==> step.disk == s.disk)
  }

  ghost predicate AllRevealedSoFar(s: State) {
    ValidIds(s) && forall w :: 0 <= w < |s.writers| && s.writers[w].pc.Revealing? ==> RevealedSoFar(s, w)
  }

  lemma RevealBegins(s: State, w: WriterId, changed: seq<Path>)
    requires ValidIds(s) && Enabled(s, Swap(w, changed)) && ValidIds(Apply(s, Swap(w, changed)))
    requires Apply(s, Swap(w, changed)).writers[w].pc.Revealing?
    ensures RevealedSoFar(Apply(s, Swap(w, changed)), w)
  {
    hide WellFormed, Script, RunDisk, ToReveal;
    var s' := Apply(s, Swap(w, changed));
    assert ScriptOf(s', w)[..0] == [];
    RunNothing(s'.disk);
    assert RevealedOn(s', w, s'.disk);
  }

  lemma RunNothing(disk: Disk)
    ensures RunDisk(disk, []) == disk
  {
  }

  lemma RevealGoesOn(s: State, w: WriterId)
    requires ValidIds(s) && Enabled(s, Reveal(w)) && RevealedSoFar(s, w) && ValidIds(Apply(s, Reveal(w)))
    ensures RevealedSoFar(Apply(s, Reveal(w)), w)
  {
    hide WellFormed, Script, ApplyDiskStep;
    var s' := Apply(s, Reveal(w));
    var script, done := ScriptOf(s, w), s.writers[w].pc.done;
    var before :| RevealedOn(s, w, before);
    assert script[..done + 1][..done] == script[..done];
    assert RevealedOn(s', w, before);
  }

  lemma OthersLeaveDisk(s: State, step: Step, w: WriterId)
    requires Inv(s) && Enabled(s, step) && LeavesDisk(s, step) && Actor(step) != Some(w)
    requires At(s, w) && s.writers[w].pc.Revealing?
    ensures Apply(s, step).disk == s.disk && Extends(s.store, Apply(s, step).store)
  {
    hide WellFormed, Script, RunDisk, WriterOk, Try, PcIds, ListsDiff, ScriptOf, ToReveal, FansOk, OwnersOk, Ancestor, Problem;
    assert s.lock == Some(w);
    if step.Interfere? || step.CommitToFan? {
      assert Apply(s, step).store[..|s.store|] == s.store;
    }
  }

  lemma RevealersCome(s: State, step: Step, w: WriterId)
    requires ValidIds(s) && Enabled(s, step) && Actor(step) == Some(w) && At(Apply(s, step), w)
    requires Apply(s, step).writers[w].pc.Revealing?
    ensures step.Swap? || step.Reveal?
  {
    hide Script, WellFormed, RunDisk, ApplyDiskStep, Try, PcIds, ListsDiff, ScriptOf, CleanUp, ToReveal, Problem;
  }

  lemma RevealedStep(s: State, step: Step)
    requires Inv(s) && Enabled(s, step) && LeavesDisk(s, step) && AllRevealedSoFar(s) && ValidIds(Apply(s, step))
    ensures AllRevealedSoFar(Apply(s, step))
  {
    hide Inv, Apply, WellFormed, Script, RunDisk, RevealedSoFar;
    var s' := Apply(s, step);
    SameWriters(s, step);
    forall w | 0 <= w < |s'.writers| && s'.writers[w].pc.Revealing? ensures RevealedSoFar(s', w) {
      if Actor(step) == Some(w) {
        RevealersCome(s, step, w);
        if step.Swap? {
          RevealBegins(s, w, step.changed);
        } else {
          RevealGoesOn(s, w);
        }
      } else {
        OthersStay(s, step, w);
        OthersLeaveDisk(s, step, w);
        RevealedKept(s, s', w);
      }
    }
  }

  lemma RevealedKept(s: State, s': State, w: WriterId)
    requires ValidIds(s) && ValidIds(s') && At(s, w) && At(s', w) && s.writers[w] == s'.writers[w]
    requires s.writers[w].pc.Revealing? && RevealedSoFar(s, w)
    requires s'.disk == s.disk && Extends(s.store, s'.store)
    ensures RevealedSoFar(s', w)
  {
    hide WellFormed, Script, RunDisk;
    var c := s.writers[w].pc.commit;
    assert s'.store[c] == s.store[c];
    var before :| RevealedOn(s, w, before);
    assert RevealedOn(s', w, before);
  }

  /** In every run in which only the writers touch the disk, a reveal under way is its steps so far on some disk. */
  lemma {:induction false} RevealedAlong(states: seq<State>, steps: seq<Step>, n: nat)
    requires Run(states, steps) && n < |states|
    requires forall k :: 0 <= k < |steps| ==> LeavesDisk(states[k], steps[k])
    ensures AllRevealedSoFar(states[n])
  {
    hide Inv, Apply, Enabled, RevealedSoFar;
    RunInv(states, steps);
    InvValid(states[n]);
    if n > 0 {
      RevealedAlong(states, steps, n - 1);
      assert Next(states[n - 1], steps[n - 1], states[n]);
      RevealedStep(states[n - 1], steps[n - 1]);
    }
  }

  // ---------------------------------------------------------------------------------------------
  // From the crash to the resync
  // ---------------------------------------------------------------------------------------------

  /** A step of some changeset, or one that concerns fan-outs only. */
  predicate OfChangesets(s: State, step: Step) {
    && !step.Interfere? && !step.Resync?
    && (Actor(step).Some? ==> At(s, Actor(step).value) && s.writers[Actor(step).value].call.Changeset?)
  }

  /** Steps of held changesets and of fan-outs leave the vault alone, so the index stays behind. */
  lemma HeldQuietly(s: State, step: Step)
    requires Held(s) && Enabled(s, step) && OfChangesets(s, step) && ValidIds(Apply(s, step))
    ensures SameVault(s, Apply(s, step)) && Extends(s.store, Apply(s, step).store) && Behind(Apply(s, step))
  {
    hide HeldBack;
    HeldValid(s);
    if Actor(step).Some? {
      OwnStepHeld(s, step, Actor(step).value);
    }
    StoreExtends(s, step);
    FilesKept(s.store, Apply(s, step).store, s.head);
    hide Apply;
  }

  lemma StoreExtends(s: State, step: Step)
    requires ValidIds(s) && Enabled(s, step)
    ensures Extends(s.store, Apply(s, step).store)
  {
    hide Script, WellFormed, RunDisk, ApplyDiskStep, Try, PcIds, ListsDiff, ScriptOf, CleanUp, ToReveal, Problem;
    assert Apply(s, step).store[..|s.store|] == s.store;
  }

  lemma {:induction false} HeldFrom(states: seq<State>, steps: seq<Step>, n: nat)
    requires Segment(states, steps) && Inv(states[0]) && Held(states[0]) && n < |states|
    requires forall k :: 0 <= k < |steps| ==> OfChangesets(states[k], steps[k])
    ensures Held(states[n]) && SameVault(states[0], states[n]) && Extends(states[0].store, states[n].store)
  {
    hide Apply, Enabled, Held, Inv, Behind;
    if n > 0 {
      HeldFrom(states, steps, n - 1);
      assert Next(states[n - 1], steps[n - 1], states[n]);
      SegmentInv(states, steps, n);
      InvValid(states[n]);
      HeldQuietly(states[n - 1], steps[n - 1]);
      HeldStep(states[n - 1], steps[n - 1]);
    }
  }

  /** A crash takes the writer and the lock with it and leaves everything else. */
  lemma CrashKeepsVault(s: State, w: WriterId, crashed: State)
    requires Inv(s) && At(s, w) && s.writers[w].pc.Revealing?
    requires Next(s, Crash(w), crashed)
    ensures Inv(crashed) && SameVault(s, crashed) && crashed.store == s.store
    ensures ValidIds(crashed) && (Behind(crashed) ==> Held(crashed))
  {
    hide WriterOk, Ancestor, WellFormed, Script, Behind;
    InvStep(s, Crash(w));
    assert s.lock == Some(w);
    assert crashed.lock == None;
    forall v | 0 <= v < |crashed.writers| ensures HeldBack(crashed.writers[v]) {
      assert !Critical(crashed.writers[v].pc);
    }
  }

  /** Materializing from any disk that is part way there ends as the interrupted run would have. */
  lemma PartWayEndsAlike(before: Disk, tree: Tree, paths: seq<Path>, done: nat)
    requires done <= |Script(tree, paths)|
    ensures var script := Script(tree, paths);
            var now := RunDisk(before, script[..done]);
            && RunDisk(now, script).files == RunDisk(now, script[done..]).files == RunDisk(before, script).files
            && RunDisk(now, script).index == RunDisk(now, script[done..]).index == RunDisk(before, script).index
  {
    hide Script, RunDisk;
    var script := Script(tree, paths);
    OneStop(before, tree, paths, done);
    ResyncRecovers(before, tree, paths, [done]);
    RunConcat(before, script[..done], script[done..]);
    assert script[..done] + script[done..] == script;
  }

  /** A reveal that started from a coherent disk ends, after crash and resync, showing its commit. */
  lemma CoherentStartShows(s: State, w: WriterId, after: Disk)
    requires Inv(s) && Tidy(s) && At(s, w) && s.writers[w].pc.Revealing? && PcIds(s.store, s.writers[w].pc)
    requires after == RunDisk(s.disk, ScriptOf(s, w))
    ensures s.head == Some(s.writers[w].pc.commit) && Coherent(after, s.store[s.writers[w].pc.commit].tree)
  {
    hide WriterOk, Ancestor, WellFormed, Script, RunDisk, Coherent, AgreeOff;
    var pc := s.writers[w].pc;
    var tree := s.store[pc.commit].tree;
    assert s.lock == Some(w);
    assert WriterOk(s.store, s.hist, w, s.writers[w]);
    RevealingCovers(s.store, s.hist, w, s.writers[w]);
    var before :| RevealedFrom(s, before, pc.tip, pc.commit, pc.paths, pc.done);
    PartWayEndsAlike(before, tree, pc.paths, pc.done);
    MaterializeKeepsCoherence(before, FilesOf(s.store, pc.tip), tree, pc.paths);
    CoherentIgnoresTemps(RunDisk(before, Script(tree, pc.paths)), after, tree);
  }

  /**
   * Crash recovery end to end. Kill a writer after any number of its reveal steps, let any number
   * of changesets come and be turned away while the index is behind, then resync the dead writer's
   * paths: working tree and index are those of the run that was not interrupted, whatever the disk
   * showed when the reveal began; and if it showed the old tip, it shows HEAD now.
   */
  lemma ResyncFinishesTheCrash(s: State, w: WriterId, states: seq<State>, steps: seq<Step>, resynced: State)
    requires Inv(s) && At(s, w) && s.writers[w].pc.Revealing? && PcIds(s.store, s.writers[w].pc)
    requires RevealedSoFar(s, w) && s.head == Some(s.writers[w].pc.commit)
    requires Segment(states, steps) && Next(s, Crash(w), states[0])
    requires steps == [] || (ValidTip(states[0].store, states[0].head) && Behind(states[0]))
    requires forall k :: 0 <= k < |steps| ==> OfChangesets(states[k], steps[k])
    requires Next(states[|steps|], Resync(s.writers[w].pc.paths), resynced)
    ensures resynced.disk.files == RunToEnd(s, w).files
    ensures resynced.disk.index == RunToEnd(s, w).index
    ensures Tidy(s) ==> ValidTip(resynced.store, resynced.head) && ShowsHead(resynced)
  {
    hide Inv, Apply, WellFormed, Script, RunDisk, Coherent, Tidy, Held, Behind, OfChangesets, Enabled;
    CrashKeepsVault(s, w, states[0]);
    var pc := s.writers[w].pc;
    if steps != [] {
      HeldFrom(states, steps, |steps|);
    } else {
      assert SameVault(states[0], states[|steps|]) && Extends(states[0].store, states[|steps|].store);
    }
    var last := states[|steps|];
    assert last.store[pc.commit] == s.store[pc.commit];
    ResyncRuns(last, pc.paths, resynced);
    var before :| RevealedOn(s, w, before);
    PartWayEndsAlike(before, s.store[pc.commit].tree, pc.paths, pc.done);
    if Tidy(s) {
      CoherentStartShows(s, w, resynced.disk);
      FilesKept(s.store, last.store, s.head);
    }
  }

  lemma ResyncRuns(s: State, paths: seq<Path>, resynced: State)
    requires Next(s, Resync(paths), resynced) && s.head.Some?
    ensures ValidTip(s.store, s.head) && resynced.store == s.store && resynced.head == s.head
    ensures resynced.disk == RunDisk(s.disk, Script(s.store[s.head.value].tree, paths))
  {
    hide Script, RunDisk;
  }

  lemma OneStop(disk: Disk, tree: Tree, paths: seq<Path>, k: nat)
    requires k <= |Script(tree, paths)|
    ensures Interrupted(disk, tree, paths, [k]) == RunDisk(disk, Script(tree, paths)[..k])
  {
    assert [k][..0] == [];
    assert Interrupted(disk, tree, paths, []) == disk;
  }

  lemma CoherentIgnoresTemps(a: Disk, b: Disk, tree: Tree)
    requires Coherent(a, tree) && a.files == b.files && a.index == b.index
    ensures Coherent(b, tree)
  {
  }
}
