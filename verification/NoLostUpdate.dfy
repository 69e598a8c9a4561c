/** No commit of the branch is ever lost. */
module NoLostUpdate {
  import opened Wrappers
  import opened ChangePlans
  import opened ObjectStore
  import opened WriteProtocol
  import opened WriteInvariants
  import opened WriteSteps
  import opened AtomicWrites

  // Under changesets, both kinds of merge-back and outside moves that only go forward, every earlier
  // tip stays an ancestor of every later one.

  /** An outside process moves the branch, if at all, to a descendant of where it was. */
  ghost predicate GoesForward(s: State, step: Step)
    requires ValidIds(s) && Enabled(s, step)
  {
    step.Interfere? ==> Descends(s.store + step.added, s.head, step.head)
  }

  /** Each value of the branch descends from the one before it. */
  ghost predicate Forward(store: Store, hist: seq<Entry>)
    requires HistOk(store, hist)
  {
    forall i :: 0 < i < |hist| ==> Descends(store, hist[i - 1].tip, hist[i].tip)
  }

  /** Whatever a writer's compare-and-swap writes descends from what it replaces. */
  lemma WritersGoForward(s: State, j: nat, w: WriterId)
    requires Inv(s) && j + 1 < |s.hist| && s.hist[j + 1].mover == By(w)
    ensures Descends(s.store, s.hist[j].tip, s.hist[j + 1].tip)
  {
    hide Inv, AtomicCommit, Ancestor;
    assert ValidIds(s) by { InvIds(s); }
    HistoryIsAtomic(s, j, w);
    if s.writers[w].call.Changeset? {
      CommitDescends(s.store, s.hist[j].tip, s.hist[j + 1].tip, s.writers[w].call.plan);
    }
  }

  lemma InvIds(s: State)
    requires Inv(s)
    ensures ValidIds(s) && HistOk(s.store, s.hist)
  {
  }

  lemma LastIsHead(s: State)
    requires Inv(s)
    ensures s.hist != [] && s.hist[|s.hist| - 1].tip == s.head
  {
  }

  lemma CommitDescends(store: Store, before: Tip, after: Tip, plan: ChangePlan)
    requires WellFormed(store) && AtomicCommit(store, before, after, plan)
    ensures Descends(store, before, after)
  {
    if before.Some? {
      ParentIsAncestor(store, after.value, 0);
    }
  }

  lemma ForwardStep(s: State, step: Step)
    requires Inv(s) && Enabled(s, step) && Inv(Apply(s, step)) && GoesForward(s, step)
    requires HistOk(s.store, s.hist) && Forward(s.store, s.hist)
    ensures HistOk(Apply(s, step).store, Apply(s, step).hist)
    ensures Forward(Apply(s, step).store, Apply(s, step).hist)
  {
    hide Inv, Apply, Descends;
    InvIds(s);
    var s' := Apply(s, step);
    InvIds(s');
    LastIsHead(s);
    HistoryGrowth(s, step);
    forall i | 0 < i < |s'.hist| ensures Descends(s'.store, s'.hist[i - 1].tip, s'.hist[i].tip) {
      if i < |s.hist| {
        assert s'.hist[i - 1] == s.hist[i - 1] && s'.hist[i] == s.hist[i];
        DescendsStable(s.store, s'.store, s.hist[i - 1].tip, s.hist[i].tip);
      } else if step.Interfere? {
        assert s'.hist[i - 1].tip == s.head && s'.hist[i].tip == step.head;
      } else {
        WritersGoForward(s', i - 1, s'.hist[i].mover.writer);
      }
    }
  }

  lemma {:induction false} ForwardAlong(states: seq<State>, steps: seq<Step>, n: nat)
    requires Run(states, steps) && n < |states|
    requires forall i :: 0 <= i < |states| ==> Inv(states[i])
    requires forall i :: 0 <= i < |steps| ==> Next(states[i], steps[i], states[i + 1]) && GoesForward(states[i], steps[i])
    ensures HistOk(states[n].store, states[n].hist) && Forward(states[n].store, states[n].hist)
  {
    hide Inv, Apply, Enabled, ValidIds, GoesForward, Forward;
    InvIds(states[n]);
    if n > 0 {
      ForwardAlong(states, steps, n - 1);
      assert Next(states[n - 1], steps[n - 1], states[n]);
      ForwardStep(states[n - 1], steps[n - 1]);
    } else {
      ForwardStart(states[0]);
    }
  }

  lemma ForwardStart(s: State)
    requires Initial(s)
    ensures HistOk(s.store, s.hist) && Forward(s.store, s.hist)
  {
  }

  lemma {:induction false} ForwardChains(store: Store, hist: seq<Entry>, i: nat, j: nat)
    requires HistOk(store, hist) && Forward(store, hist) && i <= j < |hist|
    ensures Descends(store, hist[i].tip, hist[j].tip)
  {
    hide Ancestor, WellFormed;
    if i < j {
      ForwardChains(store, hist, i, j - 1);
      DescendsTransitive(store, hist[i].tip, hist[j - 1].tip, hist[j].tip);
    } else if hist[i].tip.Some? {
      SelfAncestor(store, hist[i].tip.value);
    }
  }

  lemma SelfAncestor(store: Store, c: CommitId)
    requires WellFormed(store) && c < |store|
    ensures Ancestor(store, c, c)
  {
  }

  /**
   * No lost update: along any run whose outside moves go forward, every commit the branch ever
   * pointed to is an ancestor of every commit it points to later, the current tip included.
   */
  lemma EveryTipSurvives(states: seq<State>, steps: seq<Step>, i: nat, j: nat)
    requires Run(states, steps)
    requires forall k :: 0 <= k < |steps| ==> Next(states[k], steps[k], states[k + 1]) && GoesForward(states[k], steps[k])
    requires i <= j < |states[|steps|].hist|
    ensures var last := states[|steps|];
            && HistOk(last.store, last.hist)
            && last.hist[|last.hist| - 1].tip == last.head
            && Descends(last.store, last.hist[i].tip, last.hist[j].tip)
            && Descends(last.store, last.hist[i].tip, last.head)
  {
    var last := states[|steps|];
    hide Apply, Enabled, GoesForward, Forward, Descends, WriterOk, Ancestor;
    RunInv(states, steps);
    ForwardAlong(states, steps, |steps|);
    ForwardChains(last.store, last.hist, i, j);
    ForwardChains(last.store, last.hist, i, |last.hist| - 1);
  }
}
