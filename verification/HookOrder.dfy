/**
 * The post-commit hook sees the changesets' commits in commit order, each with its first parent.
 * Only one writer at a time is revealing, and it announces before it gives the lock back, so the
 * hook's calls follow the branch history; positions in that history say which entry each call
 * announced, and a commit still being revealed is later than all of them.
 */
module HookOrder {
  import opened Wrappers
  import opened ObjectStore
  import opened Attempts
  import opened Materialization
  import opened WriteProtocol
  import opened WriteInvariants
  import opened WriteSteps
  import opened AtomicWrites

  /** Hook call `i` announced the entry that follows history position `p`. */
  ghost predicate Announced(s: State, i: nat, p: nat) {
    && i < |s.hooks| && p + 1 < |s.hist|
    && s.hist[p].tip == s.hooks[i].0 && s.hist[p + 1].tip == Some(s.hooks[i].1)
    && exists w: nat :: s.hist[p + 1].mover == By(w) && w < |s.writers| && s.writers[w].call.Changeset?
  }

  ghost predicate Positions(s: State, at: seq<nat>) {
    && |at| == |s.hooks|
    && (forall i :: 0 <= i < |at| ==> Announced(s, i, at[i]))
    && (forall i, j :: 0 <= i < j < |at| ==> at[i] < at[j])
    && (forall w, i :: 0 <= w < |s.writers| && s.writers[w].pc.Revealing? && s.writers[w].landed.Some? && 0 <= i < |at| ==>
          at[i] < s.writers[w].landed.value)
  }

  /** What an announcing step adds, and what every other step keeps. */
  lemma HookStep(s: State, step: Step, at: seq<nat>) returns (at': seq<nat>)
    requires Inv(s) && Enabled(s, step) && Positions(s, at)
    ensures Positions(Apply(s, step), at')
  {
    var s' := Apply(s, step);
    if step.Announce? && s.writers[step.w].call.Changeset? {
      at' := at + [s.writers[step.w].landed.value];
      AnnounceStep(s, step.w, at);
    } else {
      at' := at;
      QuietHooks(s, step);
      StillAnnounced(s, s', at);
      RevealersAhead(s, step, at);
    }
  }

  lemma AnnounceStep(s: State, w: WriterId, at: seq<nat>)
    requires Inv(s) && Enabled(s, Announce(w)) && Positions(s, at) && s.writers[w].call.Changeset?
    ensures s.writers[w].landed.Some? && Positions(Apply(s, Announce(w)), at + [s.writers[w].landed.value])
  {
    hide Ancestor, WellFormed, Script, WriterOk;
    var s' := Apply(s, Announce(w));
    assert WriterOk(s.store, s.hist, w, s.writers[w]);
    RevealingRecord(s.store, s.hist, w, s.writers[w]);
    var k := s.writers[w].landed.value;
    var at' := at + [k];
    assert s.lock == Some(w);
    forall i | 0 <= i < |at'| ensures Announced(s', i, at'[i]) {
      if i < |at| {
        assert Announced(s, i, at[i]);
        var v: nat :| s.hist[at[i] + 1].mover == By(v) && v < |s.writers| && s.writers[v].call.Changeset?;
        assert s'.writers[v].call.Changeset?;
      } else {
        assert s'.hist[k + 1].mover == By(w) && s'.writers[w].call.Changeset?;
      }
    }
    forall v | 0 <= v < |s'.writers| ensures !s'.writers[v].pc.Revealing? {
      assert Critical(s'.writers[v].pc) ==> v == w;
    }
  }

  lemma RevealingRecord(store: Store, hist: seq<Entry>, w: WriterId, writer: Writer)
    requires HistOk(store, hist) && WriterOk(store, hist, w, writer) && writer.pc.Revealing?
    ensures writer.landed.Some? && writer.landed.value + 1 < |hist|
    ensures hist[writer.landed.value].tip == writer.pc.tip
    ensures hist[writer.landed.value + 1] == Entry(Some(writer.pc.commit), By(w))
  {
  }

  lemma HooksStay(s: State, step: Step)
    requires ValidIds(s) && Enabled(s, step) && !(step.Announce? && s.writers[step.w].call.Changeset?)
    ensures Apply(s, step).hooks == s.hooks
  {
    hide Script, WellFormed, RunDisk, ApplyDiskStep, Try, FirstRepeat, PcIds, ListsDiff, ScriptOf, CleanUp, Problem, FilesOf, ToReveal;
  }

  lemma OwnCallStays(s: State, step: Step, w: WriterId)
    requires ValidIds(s) && Enabled(s, step) && At(s, w) && Actor(step) == Some(w)
    ensures At(Apply(s, step), w) && Apply(s, step).writers[w].call == s.writers[w].call
  {
    hide Script, WellFormed, RunDisk, ApplyDiskStep, Try, FirstRepeat, PcIds, ListsDiff, ScriptOf, CleanUp, Problem, FilesOf, ToReveal;
  }

  lemma CallsStay(s: State, step: Step)
    requires ValidIds(s) && Enabled(s, step)
    ensures |Apply(s, step).writers| == |s.writers|
    ensures forall w :: 0 <= w < |s.writers| ==> Apply(s, step).writers[w].call == s.writers[w].call
  {
    hide Apply, Enabled, ValidIds;
    SameWriters(s, step);
    forall w | 0 <= w < |s.writers| ensures Apply(s, step).writers[w].call == s.writers[w].call {
      if Actor(step) == Some(w) {
        OwnCallStays(s, step, w);
      } else {
        OthersStay(s, step, w);
      }
    }
  }

  lemma QuietHooks(s: State, step: Step)
    requires Inv(s) && Enabled(s, step) && !(step.Announce? && s.writers[step.w].call.Changeset?)
    ensures var s' := Apply(s, step);
            && s'.hooks == s.hooks && |s.hist| <= |s'.hist| && s'.hist[..|s.hist|] == s.hist
            && |s'.writers| == |s.writers|
            && forall w :: 0 <= w < |s.writers| ==> s'.writers[w].call == s.writers[w].call
  {
    hide Apply, Enabled, WriterOk;
    HooksStay(s, step);
    CallsStay(s, step);
    HistoryGrowth(s, step);
  }

  lemma StillAnnounced(s: State, s': State, at: seq<nat>)
    requires Positions(s, at) && s'.hooks == s.hooks && |s.hist| <= |s'.hist| && s'.hist[..|s.hist|] == s.hist
    requires |s'.writers| == |s.writers|
    requires forall w :: 0 <= w < |s.writers| ==> s'.writers[w].call == s.writers[w].call
    ensures forall i :: 0 <= i < |at| ==> Announced(s', i, at[i])
  {
    forall i | 0 <= i < |at| ensures Announced(s', i, at[i]) {
      assert Announced(s, i, at[i]);
      assert s'.hist[at[i]] == s.hist[at[i]] && s'.hist[at[i] + 1] == s.hist[at[i] + 1];
      var v: nat :| s.hist[at[i] + 1].mover == By(v) && v < |s.writers| && s.writers[v].call.Changeset?;
      assert s'.hist[at[i] + 1].mover == By(v) && s'.writers[v].call.Changeset?;
    }
  }

  /** A commit being revealed is later than every commit announced. */
  lemma RevealersAhead(s: State, step: Step, at: seq<nat>)
    requires Inv(s) && Enabled(s, step) && Positions(s, at) && !(step.Announce? && s.writers[step.w].call.Changeset?)
    ensures var s' := Apply(s, step);
            forall w, i :: 0 <= w < |s'.writers| && s'.writers[w].pc.Revealing? && s'.writers[w].landed.Some? && 0 <= i < |at| ==>
              at[i] < s'.writers[w].landed.value
  {
    hide Script, WellFormed, WriterOk, RunDisk, ApplyDiskStep, Try, FirstRepeat, PcIds, ListsDiff, ScriptOf, CleanUp, Problem,
         FilesOf, ToReveal, Ancestor, OwnersOk, LockOk, FansOk;
    forall i | 0 <= i < |at| ensures at[i] + 1 < |s.hist| {
      assert Announced(s, i, at[i]);
    }
  }

  lemma {:induction false} HookPositions(states: seq<State>, steps: seq<Step>, n: nat) returns (at: seq<nat>)
    requires Run(states, steps) && n < |states|
    requires forall i :: 0 <= i < |states| ==> Inv(states[i])
    ensures Positions(states[n], at)
  {
    hide Apply, Enabled, WriterOk;
    if n == 0 {
      at := [];
    } else {
      var before := HookPositions(states, steps, n - 1);
      assert Next(states[n - 1], steps[n - 1], states[n]);
      at := HookStep(states[n - 1], steps[n - 1], before);
    }
  }

  /**
   * In every run the hook's calls match strictly increasing positions of the branch history, and
   * the parent each call reports is the one parent its commit has, whatever retries it went through.
   */
  lemma HookSeesCommitOrder(states: seq<State>, steps: seq<Step>) returns (at: seq<nat>)
    requires Run(states, steps)
    ensures var last := states[|steps|];
            && |at| == |last.hooks|
            && (forall i :: 0 <= i < |at| ==> Announced(last, i, at[i]))
            && (forall i, j :: 0 <= i < j < |at| ==> at[i] < at[j])
            && (forall i :: 0 <= i < |last.hooks| ==>
                  && last.hooks[i].1 < |last.store|
                  && last.store[last.hooks[i].1].parents == TipParents(last.hooks[i].0))
  {
    hide Apply, Enabled, WriterOk;
    RunInv(states, steps);
    at := HookPositions(states, steps, |steps|);
    var last := states[|steps|];
    forall i | 0 <= i < |last.hooks|
      ensures last.hooks[i].1 < |last.store| && last.store[last.hooks[i].1].parents == TipParents(last.hooks[i].0)
    {
      assert Announced(last, i, at[i]);
      var w: nat :| last.hist[at[i] + 1].mover == By(w) && w < |last.writers| && last.writers[w].call.Changeset?;
      HistoryIsAtomic(last, at[i], w);
    }
  }
}
