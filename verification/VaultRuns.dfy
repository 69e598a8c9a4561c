/**
 * The sequential account of a call and the step machine agree: whatever `ChangesetWithin` computes,
 * for whatever outside moves, some run of the machine with one writer computes it too. The run is
 * put together piece by piece along the call: entering, the rounds of the optimistic loop with the
 * outside moves falling between tip read and compare-and-swap, revealing the paths, and leaving.
 */
module VaultRuns {
  import opened Wrappers
  import opened ChangePlans
  import opened ObjectStore
  import opened Attempts
  import opened Materialization
  import opened WriteProtocol
  import opened WriteInvariants
  import opened WriteSteps
  import opened VaultSpec

  /** A vault with one writer that has not begun. */
  function StartState(v: Vault, plan: ChangePlan, retries: nat): State {
    State(v.store, v.head, v.disk, None, [Writer(Changeset(plan, retries), Waiting, 0, [], [], None)], map[],
          [Entry(v.head, Start)], [])
  }

  function VaultOf(s: State): Vault {
    Vault(s.store, s.head, s.disk)
  }

  function OutcomeOf(result: Result<ChangesetResult, Error>): Outcome {
    match result
    case Success(r) => if r.noOp then Unchanged(r.commit) else Committed(r.commit)
    case Failure(e) => Rejected(e)
  }

  datatype Trace = Trace(states: seq<State>, steps: seq<Step>) {
    ghost predicate Ok() {
      Run(states, steps) && Inv(Last()) && |Last().writers| == 1
    }

    ghost function Last(): State
      requires |states| > 0
    {
      states[|states| - 1]
    }
  }

  lemma Take(t: Trace, step: Step) returns (u: Trace)
    requires |t.states| > 0 && t.Ok() && Enabled(t.Last(), step)
    requires |Apply(t.Last(), step).writers| == 1
    ensures |u.states| > 0 && u.Ok() && u.Last() == Apply(t.Last(), step) && u.states[0] == t.states[0]
  {
    hide Apply, Enabled, WriterOk, Initial;
    var s' := Apply(t.Last(), step);
    InvStep(t.Last(), step);
    u := Trace(t.states + [s'], t.steps + [step]);
    forall i | 0 <= i < |u.steps| ensures Next(u.states[i], u.steps[i], u.states[i + 1]) {
      if i < |t.steps| {
        assert Next(t.states[i], t.steps[i], t.states[i + 1]);
      }
    }
  }

  ghost predicate AtPc(t: Trace, v: Vault, plan: ChangePlan, retries: nat, pc: Pc) {
    && |t.states| > 0 && t.Ok()
    && VaultOf(t.Last()) == v
    && t.Last().writers[0].call == Changeset(plan, retries) && t.Last().writers[0].pc == pc
  }

  /** The per-path checks, from path `next` on, up to the first dirty path or the end. */
  lemma {:induction false} CheckPaths(t: Trace, v: Vault, plan: ChangePlan, retries: nat, tip: Tip, next: nat) returns (u: Trace)
    requires ValidVault(v) && ValidTip(v.store, tip) && next <= |plan.TouchedPaths()|
    requires AtPc(t, v, plan, retries, Checking(tip, next))
    ensures u.states != [] && u.states[0] == t.states[0]
    ensures var dirty := FirstDirty(v.disk.files, FilesOf(v.store, tip), plan.TouchedPaths()[next..]);
            AtPc(u, v, plan, retries, if dirty.Some? then Leaving(Rejected(Other(DirtyPath(dirty.value))))
                             else Checking(tip, |plan.TouchedPaths()|))
    ensures u.Last().writers[0].losses == t.Last().writers[0].losses
    decreases |plan.TouchedPaths()| - next
  {
    hide WriterOk, WellFormed, Initial;
    var paths := plan.TouchedPaths();
    if next == |paths| {
      u := t;
    } else {
      assert paths[next..][0] == paths[next] && paths[next..][1..] == paths[next + 1..];
      u := Take(t, CheckPath(0));
      if u.Last().writers[0].pc.Checking? {
        u := CheckPaths(u, v, plan, retries, tip, next + 1);
      }
    }
  }

  lemma ReadRound(t: Trace, v: Vault, plan: ChangePlan, retries: nat) returns (u: Trace)
    requires ValidVault(v) && AtPc(t, v, plan, retries, Entered)
    ensures u.states != [] && u.states[0] == t.states[0] && AtPc(u, v, plan, retries, TipRead(v.head))
    ensures u.Last().writers[0].losses == t.Last().writers[0].losses
  {
    hide WriterOk, WellFormed, Initial;
    u := Take(t, ReadTip(0));
  }

  lemma StatusRound(t: Trace, v: Vault, plan: ChangePlan, retries: nat, tip: Tip) returns (u: Trace)
    requires ValidVault(v) && ValidTip(v.store, tip) && AtPc(t, v, plan, retries, TipRead(tip))
    ensures u.states != [] && u.states[0] == t.states[0]
    ensures AtPc(u, v, plan, retries, if v.disk.index != FilesOf(v.store, v.head) then Leaving(Rejected(Other(StagedChanges)))
                             else Checking(tip, 0))
    ensures u.Last().writers[0].losses == t.Last().writers[0].losses
  {
    hide WriterOk, WellFormed, Initial;
    u := Take(t, CheckStatus(0));
  }

  /** What a round's build step leads to. */
  ghost predicate Builds(u: Trace, v: Vault, plan: ChangePlan, retries: nat, tip: Tip)
    requires ValidTip(v.store, tip)
  {
    match Try(TreeOf(v.store, tip), plan)
    case Failed(e) => AtPc(u, v, plan, retries, Leaving(Rejected(e)))
    case NoChange => tip.Some? && AtPc(u, v, plan, retries, Leaving(Unchanged(tip.value)))
    case Built(tree) => AtPc(u, v.(store := v.store + [Commit(tree, TipParents(tip))]), plan, retries, Ready(tip, |v.store|))
  }

  lemma CommitRound(t: Trace, v: Vault, plan: ChangePlan, retries: nat, tip: Tip) returns (u: Trace)
    requires ValidVault(v) && ValidTip(v.store, tip)
    requires AtPc(t, v, plan, retries, Checking(tip, |plan.TouchedPaths()|))
    ensures u.states != [] && u.states[0] == t.states[0] && Builds(u, v, plan, retries, tip)
    ensures u.Last().writers[0].losses == t.Last().writers[0].losses
  {
    hide WriterOk, WellFormed, Initial, Try, Touched;
    if Try(TreeOf(v.store, tip), plan).NoChange? {
      NoChangeHasBase(TreeOf(v.store, tip), plan);
    }
    u := Take(t, BuildCommit(0));
  }

  /** Read, check and build: the part of a round before outside processes get their turn. */
  lemma BuildRound(t: Trace, v: Vault, plan: ChangePlan, retries: nat) returns (u: Trace)
    requires ValidVault(v) && AtPc(t, v, plan, retries, Entered)
    ensures u.states != [] && u.states[0] == t.states[0]
    ensures var problem := WorktreeProblem(v, v.head, plan.TouchedPaths());
            if problem.Some? then AtPc(u, v, plan, retries, Leaving(Rejected(problem.value))) else Builds(u, v, plan, retries, v.head)
    ensures u.Last().writers[0].losses == t.Last().writers[0].losses
  {
    hide AtPc, Builds, WellFormed, Apply, Enabled;
    u := ReadRound(t, v, plan, retries);
    u := StatusRound(u, v, plan, retries, v.head);
    if v.disk.index == FilesOf(v.store, v.head) {
      assert plan.TouchedPaths()[0..] == plan.TouchedPaths();
      u := CheckPaths(u, v, plan, retries, v.head, 0);
      if FirstDirty(v.disk.files, FilesOf(v.store, v.head), plan.TouchedPaths()).None? {
        u := CommitRound(u, v, plan, retries, v.head);
      }
    }
  }

  lemma NoChangeHasBase(base: Option<Tree>, plan: ChangePlan)
    requires Try(base, plan).NoChange?
    ensures base.Some?
  {
  }

  /** Outside processes take their turn, if they have one. */
  lemma OutsideRound(t: Trace, v: Vault, plan: ChangePlan, retries: nat, pc: Pc, outside: seq<OutsideMove>) returns (u: Trace)
    requires ValidVault(v) && AtPc(t, v, plan, retries, pc)
    ensures u.states != [] && u.states[0] == t.states[0]
    ensures AtPc(u, Disturb(v, outside), plan, retries, pc)
    ensures u.Last().writers[0].losses == t.Last().writers[0].losses
  {
    hide WriterOk, WellFormed, Initial;
    u := t;
    if outside != [] {
      var move := outside[0];
      if ValidVault(Vault(v.store + move.added, move.head, move.disk)) {
        u := Take(t, Interfere(move.added, move.head, move.disk));
      }
    }
  }

  /** The compare-and-swap at the end of a round. */
  lemma SwapRound(t: Trace, v: Vault, plan: ChangePlan, retries: nat, tip: Tip, commit: CommitId) returns (u: Trace)
    requires ValidVault(v) && ValidTip(v.store, tip) && commit < |v.store|
    requires AtPc(t, v, plan, retries, Ready(tip, commit))
    ensures u.states != [] && u.states[0] == t.states[0]
    ensures v.head == tip ==>
              AtPc(u, v.(head := Some(commit)), plan, retries, Revealing(tip, commit, plan.TouchedPaths(), 0))
    ensures v.head != tip ==>
              && |u.states| > 0 && u.Ok() && |u.Last().writers[0].losses| == |t.Last().writers[0].losses| + 1
              && AtPc(u, v, plan, retries, AfterLoss(u.Last().writers[0].losses, retries))
  {
    hide WriterOk, WellFormed, Initial;
    u := Take(t, Swap(0, plan.TouchedPaths()));
  }

  /** Where the answer of the rounds leaves the writer. */
  function AnswerPc(v: Vault, plan: ChangePlan, answer: Answer): Pc {
    match answer.result
    case Failure(e) => Leaving(Rejected(e))
    case Success(None) => Leaving(Unchanged(if v.head.Some? then v.head.value else 0))
    case Success(Some(c)) => Revealing(answer.parent, c, plan.TouchedPaths(), 0)
  }

  /** All rounds, `left` of them to go. */
  lemma {:induction false} RunRounds(t: Trace, v: Vault, plan: ChangePlan, retries: nat, left: nat, outside: seq<OutsideMove>) returns (u: Trace)
    requires ValidVault(v) && 0 < left <= retries + 1 && AtPc(t, v, plan, retries, Entered)
    requires |t.Last().writers[0].losses| == retries + 1 - left
    ensures u.states != [] && u.states[0] == t.states[0]
    ensures var (w, answer) := Rounds(v, plan, left, outside);
            AtPc(u, w, plan, retries, AnswerPc(w, plan, answer))
    decreases left
  {
    hide AtPc, Apply, Enabled, WriterOk, Try, WellFormed, Disturb;
    u := BuildRound(t, v, plan, retries);
    var tip := v.head;
    var attempt := Try(TreeOf(v.store, tip), plan);
    if WorktreeProblem(v, tip, plan.TouchedPaths()).None? && attempt.Built? {
      AddedCommitOk(v, attempt.tree);
      var built := v.(store := v.store + [Commit(attempt.tree, TipParents(tip))]);
      u := OutsideRound(u, built, plan, retries, Ready(tip, |v.store|), outside);
      var met := Disturb(built, outside);
      DisturbValid(built, outside);
      u := SwapRound(u, met, plan, retries, tip, |v.store|);
      if met.head != tip && left > 1 {
        u := RunRounds(u, met, plan, retries, left - 1, Rest(outside));
      }
    }
  }

  lemma DisturbValid(v: Vault, outside: seq<OutsideMove>)
    requires ValidVault(v)
    ensures ValidVault(Disturb(v, outside)) && |v.store| <= |Disturb(v, outside).store|
  {
  }

  /** The steps that show a landed commit. */
  lemma {:induction false} RevealAll(t: Trace, v: Vault, plan: ChangePlan, retries: nat, tip: Tip, commit: CommitId, paths: seq<Path>, done: nat) returns (u: Trace)
    requires ValidVault(v) && commit < |v.store| && AtPc(t, v, plan, retries, Revealing(tip, commit, paths, done))
    requires done <= |Script(v.store[commit].tree, paths)|
    ensures u.states != [] && u.states[0] == t.states[0]
    ensures var script := Script(v.store[commit].tree, paths);
            AtPc(u, v.(disk := RunDisk(v.disk, script[done..])), plan, retries, Revealing(tip, commit, paths, |script|))
    decreases |Script(v.store[commit].tree, paths)| - done
  {
    hide WriterOk, WellFormed, Initial, Script, RunDisk;
    var script := Script(v.store[commit].tree, paths);
    if done == |script| {
      u := t;
      assert script[done..] == [];
      RunNothing(v.disk);
    } else {
      u := Take(t, Reveal(0));
      var after := v.(disk := ApplyDiskStep(v.disk, script[done]));
      u := RevealAll(u, after, plan, retries, tip, commit, paths, done + 1);
      assert script[done..] == [script[done]] + script[done + 1..];
      RunConcat(v.disk, [script[done]], script[done + 1..]);
      RunOne(v.disk, script[done]);
    }
  }

  lemma RunNothing(disk: Disk)
    ensures RunDisk(disk, []) == disk
  {
  }

  lemma RunOne(disk: Disk, step: DiskStep)
    ensures RunDisk(disk, [step]) == ApplyDiskStep(disk, step)
  {
    assert [step][..0] == [];
  }

  /** A call that is not refused up front, from the lock's acquisition to its release. */
  lemma RunCall(t: Trace, v: Vault, plan: ChangePlan, retries: nat, outside: seq<OutsideMove>) returns (u: Trace)
    requires ValidVault(v) && Problem(plan).None? && AtPc(t, v, plan, retries, Waiting) && t.Last().lock.None?
    requires t.Last().writers[0].losses == []
    ensures u.states != [] && u.states[0] == t.states[0] && u.Last().lock.None?
    ensures var (w, result) := ChangesetWithin(v, plan, retries, outside); AtPc(u, w, plan, retries, Finished(OutcomeOf(result)))
  {
    hide AtPc, Apply, Enabled, WriterOk, Try, WellFormed, Rounds, Touched, Script, RunDisk;
    var (w, answer) := Rounds(v, plan, retries + 1, outside);
    RoundsValid(v, plan, retries + 1, outside);
    u := AcquireCall(t, v, plan, retries);
    u := RunRounds(u, v, plan, retries, retries + 1, outside);
    match answer.result
    case Failure(e) => u := ReleaseCall(u, w, plan, retries, Rejected(e));
    case Success(None) => u := ReleaseCall(u, w, plan, retries, Unchanged(w.head.value));
    case Success(Some(c)) =>
      var script := Script(w.store[c].tree, plan.TouchedPaths());
      u := RevealAll(u, w, plan, retries, answer.parent, c, plan.TouchedPaths(), 0);
      assert script[0..] == script;
      var shown := w.(disk := RunDisk(w.disk, script));
      u := AnnounceCall(u, shown, plan, retries, answer.parent, c, plan.TouchedPaths());
      u := ReleaseCall(u, shown, plan, retries, Committed(c));
  }

  /**
   * Every call is a run: from the vault as the call finds it to the vault as it leaves it, the one
   * writer goes from waiting to finished with the call's own result, and the lock is free again.
   */
  lemma CallIsARun(v: Vault, plan: ChangePlan, retries: nat, outside: seq<OutsideMove>) returns (states: seq<State>, steps: seq<Step>)
    requires ValidVault(v)
    ensures Run(states, steps) && states[0] == StartState(v, plan, retries)
    ensures var (w, result) := ChangesetWithin(v, plan, retries, outside);
            var last := states[|steps|];
            && VaultOf(last) == w && |last.writers| == 1 && last.lock.None?
            && last.writers[0].call == Changeset(plan, retries)
            && last.writers[0].pc == Finished(OutcomeOf(result))
  {
    hide Next, Inv, Initial, WellFormed, Rounds, Try, Touched, Script, RunDisk;
    var t := StartTrace(v, plan, retries);
    if Problem(plan).Some? {
      t := RefuseCall(t, v, plan, retries);
    } else {
      t := RunCall(t, v, plan, retries, outside);
    }
    states, steps := t.states, t.steps;
  }

  lemma StartTrace(v: Vault, plan: ChangePlan, retries: nat) returns (t: Trace)
    requires ValidVault(v)
    ensures t.states == [StartState(v, plan, retries)] && AtPc(t, v, plan, retries, Waiting)
  {
    hide WriterOk, WellFormed, Inv;
    t := Trace([StartState(v, plan, retries)], []);
    StartsInitial(v, plan, retries);
    InitialInv(StartState(v, plan, retries));
  }

  lemma StartsInitial(v: Vault, plan: ChangePlan, retries: nat)
    requires ValidVault(v)
    ensures Initial(StartState(v, plan, retries))
  {
  }

  lemma RefuseCall(t: Trace, v: Vault, plan: ChangePlan, retries: nat) returns (u: Trace)
    requires AtPc(t, v, plan, retries, Waiting) && Problem(plan).Some? && t.Last().lock.None?
    ensures u.states != [] && u.states[0] == t.states[0] && u.Last().lock.None?
    ensures AtPc(u, v, plan, retries, Finished(Rejected(Other(Problem(plan).value))))
  {
    hide WriterOk, WellFormed, Initial, Problem;
    u := Take(t, Refuse(0));
  }

  lemma AcquireCall(t: Trace, v: Vault, plan: ChangePlan, retries: nat) returns (u: Trace)
    requires AtPc(t, v, plan, retries, Waiting) && Problem(plan).None? && t.Last().lock.None?
    ensures u.states != [] && u.states[0] == t.states[0] && AtPc(u, v, plan, retries, Entered)
    ensures u.Last().writers[0].losses == t.Last().writers[0].losses
  {
    hide WriterOk, WellFormed, Initial, Problem;
    u := Take(t, Acquire(0));
  }

  lemma AnnounceCall(t: Trace, v: Vault, plan: ChangePlan, retries: nat, tip: Tip, commit: CommitId, paths: seq<Path>) returns (u: Trace)
    requires ValidVault(v) && commit < |v.store|
    requires AtPc(t, v, plan, retries, Revealing(tip, commit, paths, |Script(v.store[commit].tree, paths)|))
    ensures u.states != [] && u.states[0] == t.states[0] && AtPc(u, v, plan, retries, Leaving(Committed(commit)))
  {
    hide WriterOk, WellFormed, Initial, Script;
    u := Take(t, Announce(0));
  }

  lemma ReleaseCall(t: Trace, v: Vault, plan: ChangePlan, retries: nat, outcome: Outcome) returns (u: Trace)
    requires AtPc(t, v, plan, retries, Leaving(outcome))
    ensures u.states != [] && u.states[0] == t.states[0] && AtPc(u, v, plan, retries, Finished(outcome)) && u.Last().lock.None?
  {
    hide WriterOk, WellFormed, Initial;
    u := Take(t, Release(0));
  }
}
