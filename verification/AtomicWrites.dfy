/** What callers may rely on in every run. */
module AtomicWrites {
  import opened Wrappers
  import opened Sequences
  import opened ChangePlans
  import opened ObjectStore
  import opened TreeBuilding
  import opened Attempts
  import opened Materialization
  import opened WriteProtocol
  import opened WriteInvariants
  import opened WriteSteps

  // Each call takes effect at one point of the branch history, calls that report a conflict or a
  // no-op touch nothing, and a writer gives up only after enough outside interference.

  // ---------------------------------------------------------------------------------------------
  // The atomic specification
  // ---------------------------------------------------------------------------------------------

  /** In one step the branch moves from a tree that meets every precondition to that tree with the plan in force. */
  ghost predicate AtomicCommit(store: Store, before: Tip, after: Tip, plan: ChangePlan) {
    && ValidTip(store, before) && ValidTip(store, after) && after.Some?
    && AllHold(FilesOf(store, before), plan)
    && PlanEffect(FilesOf(store, before), plan.changes, FilesOf(store, after))
    && store[after.value].parents == TipParents(before)
  }

  /** The branch meets every precondition and the plan is in force already. */
  ghost predicate AtomicNoOp(store: Store, now: Tip, plan: ChangePlan) {
    && ValidTip(store, now) && now.Some?
    && AllHold(FilesOf(store, now), plan)
    && PlanEffect(FilesOf(store, now), plan.changes, FilesOf(store, now))
  }

  ghost predicate AtomicConflict(store: Store, now: Tip, plan: ChangePlan) {
    ValidTip(store, now) && !AllHold(FilesOf(store, now), plan)
  }

  /** History entry `j` became entry `j + 1` by the commit `c` of writer `w`. */
  ghost predicate WroteEntry(s: State, w: WriterId, j: nat, c: CommitId) {
    j + 1 < |s.hist| && s.hist[j + 1] == Entry(Some(c), By(w))
  }

  /**
   * The position of the branch history at which a call took effect: for a commit the entry it
   * replaced, otherwise the entry its last attempt was evaluated on.
   */
  ghost function EffectAt(writer: Writer): nat
    requires writer.landed.Some? || writer.seen != []
  {
    if writer.landed.Some? then writer.landed.value else writer.seen[|writer.seen| - 1]
  }

  /** What the outcome of a changeset says about the history at its effect position. */
  ghost predicate ExplainedBy(s: State, w: WriterId, plan: ChangePlan, outcome: Outcome, k: nat) {
    k < |s.hist| &&
    match outcome
    case Committed(c) => WroteEntry(s, w, k, c) && AtomicCommit(s.store, s.hist[k].tip, Some(c), plan)
    case Unchanged(c) => s.hist[k].tip == Some(c) && AtomicNoOp(s.store, s.hist[k].tip, plan)
    case Rejected(Concurrency(_)) => AtomicConflict(s.store, s.hist[k].tip, plan)
    case _ => true
  }

  /** The outcomes that make a claim about the branch. */
  predicate Definite(outcome: Outcome) {
    outcome.Committed? || outcome.Unchanged? || (outcome.Rejected? && outcome.error.Concurrency?)
  }

  lemma BaseIsFiles(store: Store, tip: Tip)
    requires ValidTip(store, tip)
    ensures BaseFiles(TreeOf(store, tip)) == FilesOf(store, tip)
  {
  }

  lemma SoundIsAtomic(store: Store, plan: ChangePlan, retries: nat, tip: Tip, c: CommitId)
    requires WellFormed(store) && Sound(store, Changeset(plan, retries), tip, c) && NoDup(plan.TouchedPaths())
    ensures AtomicCommit(store, tip, Some(c), plan)
  {
    AttemptMeaning(TreeOf(store, tip), plan);
    BaseIsFiles(store, tip);
  }

  lemma CommittedIsExplained(store: Store, hist: seq<Entry>, w: WriterId, writer: Writer, c: CommitId)
    requires HistOk(store, hist) && Landed(store, hist, w, writer, c)
    requires writer.call.Changeset? && NoDup(writer.call.plan.TouchedPaths())
    ensures writer.landed.Some? && writer.entry <= writer.landed.value && writer.landed.value + 1 < |hist|
    ensures hist[writer.landed.value + 1] == Entry(Some(c), By(w))
    ensures AtomicCommit(store, hist[writer.landed.value].tip, Some(c), writer.call.plan)
  {
    hide PlanEffect, Try, AllHold, AtomicCommit;
    assert writer.call == Changeset(writer.call.plan, writer.call.retries);
    SoundIsAtomic(store, writer.call.plan, writer.call.retries, hist[writer.landed.value].tip, c);
  }

  lemma AttemptIsExplained(store: Store, hist: seq<Entry>, writer: Writer, attempt: Attempt)
    requires HistOk(store, hist) && LastAttempt(store, hist, writer, attempt)
    requires NoDup(writer.call.plan.TouchedPaths())
    ensures var tip := hist[writer.seen[|writer.seen| - 1]].tip;
            && (attempt.NoChange? ==> AtomicNoOp(store, tip, writer.call.plan))
            && (attempt.Failed? && attempt.error.Concurrency? ==> AtomicConflict(store, tip, writer.call.plan))
  {
    var tip := hist[writer.seen[|writer.seen| - 1]].tip;
    AttemptMeaning(TreeOf(store, tip), writer.call.plan);
    BaseIsFiles(store, tip);
  }

  /** What a finished changeset's record must hold for its outcome. */
  lemma FinishedRecord(store: Store, hist: seq<Entry>, w: WriterId, writer: Writer)
    requires HistOk(store, hist) && WriterOk(store, hist, w, writer)
    requires writer.call.Changeset? && writer.pc.Finished? && Definite(writer.pc.outcome)
    ensures match writer.pc.outcome
            case Committed(c) => Landed(store, hist, w, writer, c)
            case Unchanged(c) =>
              writer.landed.None? && LastAttempt(store, hist, writer, NoChange)
              && hist[writer.seen[|writer.seen| - 1]].tip == Some(c)
            case Rejected(e) => writer.landed.None? && LastAttempt(store, hist, writer, Failed(e))
            case _ => true
    ensures NoDup(writer.call.plan.TouchedPaths())
    ensures writer.seen != [] ==> writer.entry <= writer.seen[|writer.seen| - 1]
  {
    hide Script, Ancestor, WellFormed, Try;
  }

  /**
   * Every changeset that ends in a commit, a no-op or a conflict is explained by the atomic
   * specification at one position of the branch history between its entry and its end.
   */
  lemma TakesEffectAtOnePoint(s: State, w: WriterId)
    requires Inv(s) && At(s, w) && s.writers[w].call.Changeset?
    requires s.writers[w].pc.Finished? && Definite(s.writers[w].pc.outcome)
    ensures var writer := s.writers[w];
            && (writer.landed.Some? || writer.seen != [])
            && writer.entry <= EffectAt(writer)
            && ExplainedBy(s, w, writer.call.plan, writer.pc.outcome, EffectAt(writer))
  {
    hide WriterOk, Script, Ancestor, WellFormed, Try, AtomicCommit, AtomicNoOp, AtomicConflict;
    var writer := s.writers[w];
    assert WriterOk(s.store, s.hist, w, writer);
    FinishedRecord(s.store, s.hist, w, writer);
    match writer.pc.outcome
    case Committed(c) => CommittedIsExplained(s.store, s.hist, w, writer, c);
    case Unchanged(c) => AttemptIsExplained(s.store, s.hist, writer, NoChange);
    case Rejected(e) => AttemptIsExplained(s.store, s.hist, writer, Failed(e));
  }

  /**
   * Replaying the history against the atomic specification: every entry a changeset wrote, even
   * one that failed or crashed afterwards, is that plan's atomic commit on the entry before it,
   * and no writer wrote two entries.
   */
  lemma HistoryIsAtomic(s: State, j: nat, w: WriterId)
    requires Inv(s) && j + 1 < |s.hist| && s.hist[j + 1].mover == By(w)
    ensures At(s, w) && s.writers[w].entry <= j
    ensures forall i: nat :: i < |s.hist| && s.hist[i].mover == By(w) ==> i == j + 1
    ensures s.writers[w].call.Changeset? ==>
              AtomicCommit(s.store, s.hist[j].tip, s.hist[j + 1].tip, s.writers[w].call.plan)
    ensures s.writers[w].call.MergeBack? ==> Descends(s.store, s.hist[j].tip, s.hist[j + 1].tip)
  {
    hide WriterOk, Script, Ancestor, Try, AtomicCommit;
    var writer := s.writers[w];
    assert writer.landed == Some(j);
    assert WriterOk(s.store, s.hist, w, writer);
    LandedCommit(s.store, s.hist, w, writer);
    var c :| Landed(s.store, s.hist, w, writer, c);
    if writer.call.Changeset? {
      LandedWasWellPosed(s.store, s.hist, w, writer);
      CommittedIsExplained(s.store, s.hist, w, writer, c);
    }
  }

  lemma LandedWasWellPosed(store: Store, hist: seq<Entry>, w: WriterId, writer: Writer)
    requires HistOk(store, hist) && WriterOk(store, hist, w, writer)
    requires writer.call.Changeset? && writer.landed.Some?
    ensures NoDup(writer.call.plan.TouchedPaths())
  {
    hide Script, Ancestor, WellFormed;
  }

  // ---------------------------------------------------------------------------------------------
  // Calls that did not land touched nothing
  // ---------------------------------------------------------------------------------------------

  /** The writer a step belongs to, if any. */
  function Actor(step: Step): Option<WriterId> {
    match step
    case Refuse(w) => Some(w)
    case Acquire(w) => Some(w)
    case ReadWip(w) => Some(w)
    case ReadTip(w) => Some(w)
    case CheckStatus(w) => Some(w)
    case CheckPath(w) => Some(w)
    case BuildCommit(w) => Some(w)
    case BuildMerge(w, _) => Some(w)
    case Swap(w, _) => Some(w)
    case Reveal(w) => Some(w)
    case Announce(w) => Some(w)
    case Release(w) => Some(w)
    case Fail(w) => Some(w)
    case Crash(w) => Some(w)
    case _ => None
  }

  ghost predicate SameVault(s: State, s': State) {
    s.head == s'.head && s.disk == s'.disk
  }

  /** A writer's step leaves branch, index and working tree alone unless its compare-and-swap has succeeded. */
  lemma TouchesOnlyOnceLanded(s: State, step: Step, w: WriterId)
    requires Inv(s) && Enabled(s, step) && Actor(step) == Some(w)
    ensures At(Apply(s, step), w)
    ensures !SameVault(s, Apply(s, step)) ==> Apply(s, step).writers[w].landed.Some?
  {
    hide Inv, Apply, Enabled, SameVault;
    WriterIsThere(s, step, w);
    TouchedWhen(s, step, w);
    if s.writers[w].pc.Revealing? {
      RevealingHasLanded(s, w);
      OwnLandedStays(s, step, w);
    }
  }

  lemma WriterIsThere(s: State, step: Step, w: WriterId)
    requires Inv(s) && Enabled(s, step) && Actor(step) == Some(w)
    ensures ValidIds(s) && At(s, w) && At(Apply(s, step), w)
  {
    hide WriterOk, OwnersOk, FansOk, LockOk, ScriptOf, ToReveal;
    SameWriters(s, step);
    hide Apply;
  }

  /** Branch, index and files are written by a compare-and-swap that succeeds and by revealing. */
  lemma TouchedWhen(s: State, step: Step, w: WriterId)
    requires ValidIds(s) && Enabled(s, step) && Actor(step) == Some(w) && At(s, w) && At(Apply(s, step), w)
    ensures !SameVault(s, Apply(s, step)) ==> Apply(s, step).writers[w].landed.Some? || s.writers[w].pc.Revealing?
  {
    hide Script, WellFormed, RunDisk, ApplyDiskStep, Try, PcIds, ListsDiff, ScriptOf, AfterLoss, Problem, ToReveal;
  }

  lemma RevealingHasLanded(s: State, w: WriterId)
    requires Inv(s) && At(s, w) && s.writers[w].pc.Revealing?
    ensures s.writers[w].landed.Some?
  {
    hide Script, Ancestor, WellFormed, RacesOk, OwnersOk, FansOk, LockOk;
    assert WriterOk(s.store, s.hist, w, s.writers[w]);
  }

  /** No step adds or drops a writer. */
  lemma SameWriters(s: State, step: Step)
    requires ValidIds(s) && Enabled(s, step)
    ensures |Apply(s, step).writers| == |s.writers|
  {
    hide Script, WellFormed, RunDisk, ApplyDiskStep, Try, PcIds, ListsDiff, ScriptOf, CleanUp, ToReveal, Problem,
         Build, StartMerge, CompareAndSwap;
  }

  /** A step changes no writer but its own. */
  lemma OthersStay(s: State, step: Step, w: WriterId)
    requires ValidIds(s) && Enabled(s, step) && At(s, w) && Actor(step) != Some(w)
    ensures At(Apply(s, step), w) && Apply(s, step).writers[w] == s.writers[w]
  {
    hide Script, WellFormed, RunDisk, ApplyDiskStep, Try, FirstRepeat, PcIds, ListsDiff, ScriptOf, CleanUp, AfterLoss, Problem;
  }

  lemma OwnLandedStays(s: State, step: Step, w: WriterId)
    requires ValidIds(s) && Enabled(s, step) && At(s, w) && Actor(step) == Some(w)
    requires s.writers[w].landed.Some?
    ensures At(Apply(s, step), w) && Apply(s, step).writers[w].landed.Some?
  {
    hide Script, WellFormed, RunDisk, ApplyDiskStep, Try, FirstRepeat, PcIds, ListsDiff, ScriptOf, CleanUp, AfterLoss, Problem;
  }

  lemma LandedStays(s: State, step: Step, w: WriterId)
    requires ValidIds(s) && Enabled(s, step) && At(s, w) && s.writers[w].landed.Some?
    ensures At(Apply(s, step), w)
    ensures Apply(s, step).writers[w].landed.Some?
  {
    hide Enabled, Apply, ValidIds;
    if Actor(step) == Some(w) {
      OwnLandedStays(s, step, w);
    } else {
      OthersStay(s, step, w);
    }
  }

  lemma {:induction false} LandedStaysAlong(states: seq<State>, steps: seq<Step>, w: WriterId, i: nat, j: nat)
    requires Segment(states, steps) && i <= j < |states|
    requires forall k :: 0 <= k < |states| ==> Inv(states[k])
    requires At(states[i], w) && states[i].writers[w].landed.Some?
    ensures At(states[j], w) && states[j].writers[w].landed.Some?
  {
    hide Inv, Apply, Enabled, ValidIds;
    if i < j {
      LandedStaysAlong(states, steps, w, i, j - 1);
      assert Next(states[j - 1], steps[j - 1], states[j]);
      LandedStays(states[j - 1], steps[j - 1], w);
    }
  }

  /** The outcomes that promise that nothing was applied: all but a commit, a merge and an I/O failure. */
  predicate PromisesNothing(outcome: Outcome) {
    !outcome.Committed? && !outcome.Merged? && outcome != Rejected(Other(IoFailure))
  }

  /**
   * A call that ends in a conflict, a no-op, or any refusal but an I/O failure applied nothing: no
   * step of that call changed the vault.
   */
  lemma NothingApplied(states: seq<State>, steps: seq<Step>, w: WriterId)
    requires Run(states, steps)
    requires At(states[|steps|], w) && states[|steps|].writers[w].pc.Finished?
    requires PromisesNothing(states[|steps|].writers[w].pc.outcome)
    ensures forall i :: 0 <= i < |steps| && Actor(steps[i]) == Some(w) ==> SameVault(states[i], states[i + 1])
  {
    RunInv(states, steps);
    FinishedQuietly(states[|steps|], w);
    forall i | 0 <= i < |steps| && Actor(steps[i]) == Some(w)
      ensures SameVault(states[i], states[i + 1])
    {
      assert Next(states[i], steps[i], states[i + 1]);
      TouchesOnlyOnceLanded(states[i], steps[i], w);
      if !SameVault(states[i], states[i + 1]) {
        LandedStaysAlong(states, steps, w, i + 1, |steps|);
      }
    }
  }

  lemma FinishedQuietly(s: State, w: WriterId)
    requires Inv(s) && At(s, w) && s.writers[w].pc.Finished?
    requires PromisesNothing(s.writers[w].pc.outcome)
    ensures s.writers[w].landed.None?
  {
    hide WriterOk, Script, Ancestor, WellFormed;
    assert WriterOk(s.store, s.hist, w, s.writers[w]);
    QuietRecord(s.store, s.hist, w, s.writers[w]);
  }

  lemma QuietRecord(store: Store, hist: seq<Entry>, w: WriterId, writer: Writer)
    requires HistOk(store, hist) && WriterOk(store, hist, w, writer)
    requires writer.pc.Finished? && PromisesNothing(writer.pc.outcome)
    ensures writer.landed.None?
  {
    hide Script, Ancestor, WellFormed, RacesOk, Undisturbed, Try;
  }

  // ---------------------------------------------------------------------------------------------
  // Retries
  // ---------------------------------------------------------------------------------------------

  /** How many history entries in `from < i <= to` were written by outside processes. */
  ghost function OutsideWrites(hist: seq<Entry>, from: nat, to: nat): nat
    requires to < |hist|
  {
    if to <= from then 0
    else OutsideWrites(hist, from, to - 1) + (if hist[to].mover == Outside then 1 else 0)
  }

  lemma {:induction false} OutsideWritesSplit(hist: seq<Entry>, from: nat, mid: nat, to: nat)
    requires from <= mid <= to < |hist|
    ensures OutsideWrites(hist, from, to) == OutsideWrites(hist, from, mid) + OutsideWrites(hist, mid, to)
  {
    if mid < to {
      OutsideWritesSplit(hist, from, mid, to - 1);
    }
  }

  lemma {:induction false} LossesCount(hist: seq<Entry>, writer: Writer, n: nat)
    requires RacesOk(hist, writer) && 0 < n <= |writer.losses|
    ensures writer.entry <= writer.losses[n - 1] < |hist|
    ensures OutsideWrites(hist, writer.entry, writer.losses[n - 1]) >= n
  {
    var read, loss := writer.seen[n - 1], writer.losses[n - 1];
    assert LostTo(hist, read, loss);
    assert OutsideWrites(hist, read, loss) >= 1;
    OutsideWritesSplit(hist, writer.entry, read, loss);
    if n > 1 {
      LossesCount(hist, writer, n - 1);
      OutsideWritesSplit(hist, writer.entry, writer.losses[n - 2], read);
    }
  }

  /**
   * Bounded retry with system progress: a changeset attempts at most one build more than its
   * retries, and it reports exhaustion only when each of those builds lost its own race, so at
   * least that many outside writes of the branch fell between its entry and its end.
   */
  lemma ExhaustionNeedsInterference(s: State, w: WriterId)
    requires Inv(s) && At(s, w)
    ensures var writer := s.writers[w];
            var budget := writer.call.Budget();
            && |writer.seen| <= budget + 1
            && (writer.pc == Finished(Rejected(Other(RetriesExhausted))) ==>
                  && |writer.losses| == budget + 1
                  && (forall k :: 0 <= k < |writer.losses| ==> LostTo(s.hist, writer.seen[k], writer.losses[k]))
                  && OutsideWrites(s.hist, writer.entry, |s.hist| - 1) >= budget + 1)
  {
    hide WriterOk, Script, Ancestor, WellFormed, OutsideWrites;
    var writer := s.writers[w];
    assert WriterOk(s.store, s.hist, w, writer);
    ExhaustedRecord(s.store, s.hist, w, writer);
    if writer.pc == Finished(Rejected(Other(RetriesExhausted))) {
      LossesCount(s.hist, writer, writer.call.Budget() + 1);
      OutsideWritesSplit(s.hist, writer.entry, writer.losses[writer.call.Budget()], |s.hist| - 1);
    }
  }

  lemma ExhaustedRecord(store: Store, hist: seq<Entry>, w: WriterId, writer: Writer)
    requires HistOk(store, hist) && WriterOk(store, hist, w, writer)
    ensures RacesOk(hist, writer)
    ensures writer.pc == Finished(Rejected(Other(RetriesExhausted))) ==> |writer.losses| == writer.call.Budget() + 1
  {
    hide Script, Ancestor, WellFormed;
  }

  // ---------------------------------------------------------------------------------------------
  // Real-time order
  // ---------------------------------------------------------------------------------------------

  lemma FinishedStays(s: State, step: Step, w: WriterId)
    requires ValidIds(s) && Enabled(s, step) && At(s, w) && s.writers[w].pc.Finished?
    ensures At(Apply(s, step), w) && Apply(s, step).writers[w] == s.writers[w]
  {
    hide Apply;
    assert Actor(step) != Some(w);
    OthersStay(s, step, w);
  }

  lemma {:induction false} FinishedStaysAlong(states: seq<State>, steps: seq<Step>, w: WriterId, i: nat, j: nat)
    requires Segment(states, steps) && i <= j < |states|
    requires At(states[i], w) && states[i].writers[w].pc.Finished?
    ensures At(states[j], w) && states[j].writers[w] == states[i].writers[w]
  {
    hide Apply, Enabled, ValidIds;
    if i < j {
      FinishedStaysAlong(states, steps, w, i, j - 1);
      assert Next(states[j - 1], steps[j - 1], states[j]);
      FinishedStays(states[j - 1], steps[j - 1], w);
    }
  }

  lemma HistoryKept(s: State, step: Step)
    requires ValidIds(s) && Enabled(s, step)
    ensures |s.hist| <= |Apply(s, step).hist|
  {
    hide Script, WellFormed, RunDisk, ApplyDiskStep, Try, PcIds, ListsDiff, ScriptOf, CleanUp, ToReveal, Problem, AfterLoss;
  }

  lemma OwnEntryAfter(s: State, step: Step, w: WriterId)
    requires ValidIds(s) && Enabled(s, step) && At(s, w) && At(Apply(s, step), w) && Actor(step) == Some(w)
    ensures !Apply(s, step).writers[w].pc.Waiting?
    ensures Apply(s, step).writers[w].entry == (if s.writers[w].pc.Waiting? then |s.hist| - 1 else s.writers[w].entry)
  {
    hide Script, WellFormed, RunDisk, ApplyDiskStep, Try, PcIds, ListsDiff, ScriptOf, CleanUp, ToReveal, Problem;
  }

  /** A writer's entry is noted when it first moves and never again. */
  lemma EntryAfter(s: State, step: Step, w: WriterId)
    requires ValidIds(s) && Enabled(s, step) && At(s, w)
    ensures At(Apply(s, step), w) && |s.hist| <= |Apply(s, step).hist|
    ensures Apply(s, step).writers[w].pc.Waiting? ==> s.writers[w].pc.Waiting?
    ensures !Apply(s, step).writers[w].pc.Waiting? ==>
              Apply(s, step).writers[w].entry == (if s.writers[w].pc.Waiting? then |s.hist| - 1 else s.writers[w].entry)
  {
    hide ValidIds, Enabled, Apply;
    SameWriters(s, step);
    HistoryKept(s, step);
    if Actor(step) == Some(w) {
      OwnEntryAfter(s, step, w);
    } else {
      OthersStay(s, step, w);
    }
  }

  lemma {:induction false} EntryIsLater(states: seq<State>, steps: seq<Step>, w: WriterId, i: nat, j: nat)
    requires Segment(states, steps) && i <= j < |states|
    requires At(states[i], w) && states[i].writers[w].pc.Waiting?
    ensures At(states[j], w) && |states[i].hist| <= |states[j].hist|
    ensures !states[j].writers[w].pc.Waiting? ==> states[j].writers[w].entry + 1 >= |states[i].hist|
  {
    hide Apply, Enabled, ValidIds;
    if i < j {
      EntryIsLater(states, steps, w, i, j - 1);
      assert Next(states[j - 1], steps[j - 1], states[j]);
      EntryAfter(states[j - 1], steps[j - 1], w);
    }
  }

  /**
   * The effect positions respect real time: a changeset that was over before another one began
   * took effect no later than it, and strictly earlier if it wrote the branch.
   */
  lemma EffectsInRealTimeOrder(states: seq<State>, steps: seq<Step>, i: nat, a: WriterId, b: WriterId)
    requires Run(states, steps) && i < |states|
    requires At(states[i], a) && states[i].writers[a].pc.Finished? && Definite(states[i].writers[a].pc.outcome)
    requires At(states[i], b) && states[i].writers[b].pc.Waiting?
    requires states[i].writers[a].call.Changeset? && states[i].writers[b].call.Changeset?
    requires At(states[|steps|], b) && states[|steps|].writers[b].pc.Finished? && Definite(states[|steps|].writers[b].pc.outcome)
    requires states[|steps|].writers[b].call.Changeset?
    ensures var first, second := states[i].writers[a], states[|steps|].writers[b];
            && (first.landed.Some? || first.seen != []) && (second.landed.Some? || second.seen != [])
            && EffectAt(first) <= EffectAt(second)
            && (first.landed.Some? ==> EffectAt(first) < EffectAt(second))
            && At(states[|steps|], a) && states[|steps|].writers[a] == first
  {
    hide Inv, Apply, Enabled, ValidIds, ExplainedBy;
    RunInv(states, steps);
    TakesEffectAtOnePoint(states[i], a);
    TakesEffectAtOnePoint(states[|steps|], b);
    EffectBeforeEnd(states[i], a);
    EntryIsLater(states, steps, b, i, |steps|);
    FinishedStaysAlong(states, steps, a, i, |steps|);
  }

  lemma EffectBeforeEnd(s: State, w: WriterId)
    requires Inv(s) && At(s, w)
    ensures s.writers[w].landed.Some? ==> s.writers[w].landed.value + 1 < |s.hist|
    ensures s.writers[w].seen != [] ==> s.writers[w].seen[|s.writers[w].seen| - 1] < |s.hist|
  {
    hide WriterOk, Script, Ancestor, WellFormed;
    assert WriterOk(s.store, s.hist, w, s.writers[w]);
    RecordInRange(s.store, s.hist, w, s.writers[w]);
  }

  lemma RecordInRange(store: Store, hist: seq<Entry>, w: WriterId, writer: Writer)
    requires HistOk(store, hist) && WriterOk(store, hist, w, writer)
    ensures writer.landed.Some? ==> writer.landed.value + 1 < |hist|
    ensures writer.seen != [] ==> writer.seen[|writer.seen| - 1] < |hist|
  {
    hide Script, Ancestor, WellFormed;
    if writer.landed.Some? {
      LandedCommit(store, hist, w, writer);
    }
  }
}
