/**
 * The write protocol of one worktree as a step machine: any number of writers, each applying a
 * plan or merging a fan-out back under the worktree's commit lock, interleaved with outside
 * processes that may move the branch, rewrite the index or edit files at any time.
 */
module WriteProtocol {
  import opened Wrappers
  import opened Sequences
  import opened ChangePlans
  import opened ObjectStore
  import opened Attempts
  import opened Materialization

  type WriterId = nat
  type FanId = nat

  /** How many rebuilds `commit_changeset` allows after its first attempt. */
  const DEFAULT_MAX_RETRIES: nat := 8

  datatype Strategy = MergeCommit | FastForward

  /** A changeset carries its own retry budget; a merge-back does not retry. */
  datatype Call = Changeset(plan: ChangePlan, retries: nat) | MergeBack(fan: FanId, strategy: Strategy) {
    function Budget(): nat {
      if Changeset? then retries else 0
    }
  }

  datatype Outcome =
    | Committed(commit: CommitId)
    | Unchanged(commit: CommitId)
    | Merged(commit: CommitId)
    | NothingToMerge(commit: CommitId)
    | Rejected(error: Error)

  datatype Pc =
    | Waiting
    | Entered
    | WipRead(fork: CommitId, wip: CommitId)
    | TipRead(tip: Tip)
    | Checking(tip: Tip, next: nat)
    | Merging(tip: Tip, wip: CommitId)
    | Ready(tip: Tip, commit: CommitId)
    | Revealing(tip: Tip, commit: CommitId, paths: seq<Path>, done: nat)
    | Leaving(outcome: Outcome)
    | Finished(outcome: Outcome)
    | Crashed

  /**
   * A writer and what it has seen so far, in positions of the branch history: where it took the
   * lock or was refused, where each tip read fell, where each lost compare-and-swap fell, and the entry just
   * before the one its own compare-and-swap wrote.
   */
  datatype Writer = Writer(call: Call, pc: Pc, entry: nat, seen: seq<nat>, losses: seq<nat>, landed: Option<nat>)

  datatype Mover = Start | Outside | By(writer: WriterId)

  /** One value the branch has had, and who gave it that value. */
  datatype Entry = Entry(tip: Tip, mover: Mover)

  /** A fan-out: where its branch forked off, where the branch is now, and whether it still exists. */
  datatype Fan = Fan(fork: CommitId, tip: CommitId, live: bool)

  datatype State = State(
    store: Store,
    head: Tip,
    disk: Disk,
    lock: Option<WriterId>,
    writers: seq<Writer>,
    fans: map<FanId, Fan>,
    hist: seq<Entry>,
    hooks: seq<(Tip, CommitId)>)

  datatype Step =
    | Refuse(w: WriterId)
    | Acquire(w: WriterId)
    | ReadWip(w: WriterId)
    | ReadTip(w: WriterId)
    | CheckStatus(w: WriterId)
    | CheckPath(w: WriterId)
    | BuildCommit(w: WriterId)
    | BuildMerge(w: WriterId, merged: Option<Tree>)
    | Swap(w: WriterId, changed: seq<Path>)
    | Reveal(w: WriterId)
    | Announce(w: WriterId)
    | Release(w: WriterId)
    | Fail(w: WriterId)
    | Crash(w: WriterId)
    | Interfere(added: seq<Commit>, head: Tip, disk: Disk)
    | OpenFan(fan: FanId)
    | CommitToFan(fan: FanId, tree: Tree)
    | CloseFan(fan: FanId)
    | Resync(paths: seq<Path>)

  // ---------------------------------------------------------------------------------------------
  // When a step can happen
  // ---------------------------------------------------------------------------------------------

  /** The program points between taking the commit lock and giving it back. */
  predicate Critical(pc: Pc) {
    !pc.Waiting? && !pc.Finished? && !pc.Crashed?
  }

  predicate Refused(call: Call) {
    call.Changeset? && Problem(call.plan).Some?
  }

  /** The paths that differ between two trees, listed once each. */
  ghost predicate ListsDiff(paths: seq<Path>, a: Tree, b: Tree) {
    NoDup(paths) && forall p :: p in paths <==> Lookup(a, p) != Lookup(b, p)
  }

  ghost predicate ValidIds(s: State) {
    && WellFormed(s.store)
    && ValidTip(s.store, s.head)
    && s.hist != []
    && (forall i :: 0 <= i < |s.hist| ==> ValidTip(s.store, s.hist[i].tip))
    && (forall f :: f in s.fans ==> s.fans[f].fork < |s.store| && s.fans[f].tip < |s.store|)
    && (forall w :: 0 <= w < |s.writers| ==> PcIds(s.store, s.writers[w].pc))
  }

  predicate PcIds(store: Store, pc: Pc) {
    match pc
    case WipRead(fork, wip) => fork < |store| && wip < |store|
    case TipRead(tip) => ValidTip(store, tip)
    case Checking(tip, _) => ValidTip(store, tip)
    case Merging(tip, wip) => ValidTip(store, tip) && tip.Some? && wip < |store|
    case Ready(tip, c) => ValidTip(store, tip) && c < |store|
    case Revealing(tip, c, _, _) => ValidTip(store, tip) && c < |store|
    case _ => true
  }

  ghost predicate Enabled(s: State, step: Step)
    requires ValidIds(s)
  {
    match step
    case Refuse(w) => At(s, w) && s.writers[w].pc.Waiting? && Refused(s.writers[w].call)
    case Acquire(w) => At(s, w) && s.writers[w].pc.Waiting? && !Refused(s.writers[w].call) && s.lock.None?
    case ReadWip(w) => At(s, w) && s.writers[w].pc.Entered? && s.writers[w].call.MergeBack?
    case ReadTip(w) =>
      && At(s, w)
      && if s.writers[w].call.Changeset? then s.writers[w].pc.Entered? else s.writers[w].pc.WipRead?
    case CheckStatus(w) => At(s, w) && s.writers[w].pc.TipRead?
    case CheckPath(w) =>
      At(s, w) && s.writers[w].pc.Checking? && s.writers[w].call.Changeset?
      && s.writers[w].pc.next < |s.writers[w].call.plan.TouchedPaths()|
    case BuildCommit(w) =>
      At(s, w) && s.writers[w].pc.Checking? && s.writers[w].call.Changeset?
      && s.writers[w].pc.next == |s.writers[w].call.plan.TouchedPaths()|
    case BuildMerge(w, _) => At(s, w) && s.writers[w].pc.Merging?
    case Swap(w, changed) => At(s, w) && s.writers[w].pc.Ready? && ToReveal(s, w, changed)
    case Reveal(w) => At(s, w) && s.writers[w].pc.Revealing? && s.writers[w].pc.done < |ScriptOf(s, w)|
    case Announce(w) => At(s, w) && s.writers[w].pc.Revealing? && s.writers[w].pc.done == |ScriptOf(s, w)|
    case Release(w) => At(s, w) && s.writers[w].pc.Leaving?
    case Fail(w) => At(s, w) && Critical(s.writers[w].pc) && !s.writers[w].pc.Leaving?
    case Crash(w) => At(s, w) && Critical(s.writers[w].pc)
    case Interfere(added, head, _) =>
      WellFormed(s.store + added) && ValidTip(s.store + added, head)
    case OpenFan(f) => f !in s.fans && s.head.Some?
    case CommitToFan(f, _) => f in s.fans && s.fans[f].live
    case CloseFan(f) => f in s.fans
    case Resync(_) => true
  }

  /** A changeset reveals the paths it touches, a merge-back those that its commit changes. */
  ghost predicate ToReveal(s: State, w: WriterId, changed: seq<Path>)
    requires At(s, w) && s.writers[w].pc.Ready? && PcIds(s.store, s.writers[w].pc)
  {
    var writer := s.writers[w];
    if writer.call.Changeset? then changed == writer.call.plan.TouchedPaths()
    else ListsDiff(changed, FilesOf(s.store, writer.pc.tip), s.store[writer.pc.commit].tree)
  }

  predicate At(s: State, w: WriterId) {
    w < |s.writers|
  }

  function ScriptOf(s: State, w: WriterId): seq<DiskStep>
    requires At(s, w) && s.writers[w].pc.Revealing? && PcIds(s.store, s.writers[w].pc)
  {
    Script(s.store[s.writers[w].pc.commit].tree, s.writers[w].pc.paths)
  }

  // ---------------------------------------------------------------------------------------------
  // What a step does
  // ---------------------------------------------------------------------------------------------

  function Goto(s: State, w: WriterId, pc: Pc): State
    requires At(s, w)
  {
    s.(writers := s.writers[w := s.writers[w].(pc := pc)])
  }

  function Leave(s: State, w: WriterId, outcome: Outcome): State
    requires At(s, w)
  {
    Goto(s, w, Leaving(outcome))
  }

  function Reject(s: State, w: WriterId, error: Error): State
    requires At(s, w)
  {
    Leave(s, w, Rejected(error))
  }

  /** Note the position of a tip read, then continue at `pc`. */
  function NoteRead(s: State, w: WriterId, pc: Pc): State
    requires At(s, w) && s.hist != []
  {
    s.(writers := s.writers[w := s.writers[w].(seen := s.writers[w].seen + [|s.hist| - 1], pc := pc)])
  }

  /** Give the branch a value; a value it already has is no write. */
  function MoveHead(s: State, tip: Tip, mover: Mover): State {
    if tip == s.head then s else s.(head := tip, hist := s.hist + [Entry(tip, mover)])
  }

  ghost function Apply(s: State, step: Step): State
    requires ValidIds(s) && Enabled(s, step)
  {
    match step
    case Refuse(w) =>
      var answer := Rejected(Other(Problem(s.writers[w].call.plan).value));
      s.(writers := s.writers[w := s.writers[w].(pc := Finished(answer), entry := |s.hist| - 1)])
    case Acquire(w) =>
      s.(lock := Some(w),
         writers := s.writers[w := s.writers[w].(pc := Entered, entry := |s.hist| - 1)])
    case ReadWip(w) =>
      var fan := s.writers[w].call.fan;
      if fan in s.fans && s.fans[fan].live then Goto(s, w, WipRead(s.fans[fan].fork, s.fans[fan].tip))
      else Reject(s, w, Other(MissingBranch))
    case ReadTip(w) =>
      if s.writers[w].call.Changeset? then NoteRead(s, w, TipRead(s.head))
      else StartMerge(s, w)
    case CheckStatus(w) =>
      if s.disk.index != FilesOf(s.store, s.head) then Reject(s, w, Other(StagedChanges))
      else Goto(s, w, Checking(s.writers[w].pc.tip, 0))
    case CheckPath(w) =>
      var pc := s.writers[w].pc;
      var path := s.writers[w].call.plan.TouchedPaths()[pc.next];
      if Lookup(s.disk.files, path) != Lookup(FilesOf(s.store, pc.tip), path) then Reject(s, w, Other(DirtyPath(path)))
      else Goto(s, w, pc.(next := pc.next + 1))
    case BuildCommit(w) => Build(s, w)
    case BuildMerge(w, merged) =>
      var pc := s.writers[w].pc;
      if merged.None? then Reject(s, w, Other(MergeConflict))
      else
        Goto(s.(store := s.store + [Commit(merged.value, [pc.tip.value, pc.wip])]), w, Ready(pc.tip, |s.store|))
    case Swap(w, changed) => CompareAndSwap(s, w, changed)
    case Reveal(w) =>
      var pc := s.writers[w].pc;
      Goto(s.(disk := ApplyDiskStep(s.disk, ScriptOf(s, w)[pc.done])), w, pc.(done := pc.done + 1))
    case Announce(w) =>
      var pc := s.writers[w].pc;
      if s.writers[w].call.Changeset? then
        Leave(s.(hooks := s.hooks + [(pc.tip, pc.commit)]), w, Committed(pc.commit))
      else Leave(s, w, Merged(pc.commit))
    case Release(w) => Goto(s.(lock := None), w, Finished(s.writers[w].pc.outcome))
    case Fail(w) => Reject(s.(disk := CleanUp(s, w)), w, Other(IoFailure))
    case Crash(w) => Goto(s.(lock := None), w, Crashed)
    case Interfere(added, head, disk) =>
      MoveHead(s.(store := s.store + added, disk := disk), head, Outside)
    case OpenFan(f) => s.(fans := s.fans[f := Fan(s.head.value, s.head.value, true)])
    case CommitToFan(f, tree) =>
      s.(store := s.store + [Commit(tree, [s.fans[f].tip])],
         fans := s.fans[f := s.fans[f].(tip := |s.store|)])
    case CloseFan(f) => s.(fans := s.fans[f := s.fans[f].(live := false)])
    case Resync(paths) =>
      if s.head.None? then s
      else s.(disk := RunDisk(s.disk, Script(s.store[s.head.value].tree, paths)))
  }

  /** The merge-back's second read: the main branch, and the decisions that follow from it. */
  function StartMerge(s: State, w: WriterId): (s': State)
    requires At(s, w) && s.writers[w].call.MergeBack? && s.writers[w].pc.WipRead? && s.hist != []
    ensures |s'.writers| == |s.writers|
  {
    var pc := s.writers[w].pc;
    if s.head.None? then Reject(s, w, Other(MissingBranch))
    else if pc.wip == pc.fork then NoteRead(s, w, Leaving(NothingToMerge(s.head.value)))
    else if s.writers[w].call.strategy.MergeCommit? then NoteRead(s, w, Merging(s.head, pc.wip))
    else if s.head.value != pc.fork then NoteRead(s, w, Leaving(Rejected(Other(NotFastForward))))
    else NoteRead(s, w, Ready(s.head, pc.wip))
  }

  function TipParents(tip: Tip): seq<CommitId> {
    if tip.Some? then [tip.value] else []
  }

  /** The builder's pure part, run on the tip that was read; a new tree becomes a commit object. */
  function Build(s: State, w: WriterId): (s': State)
    requires At(s, w) && s.writers[w].call.Changeset? && s.writers[w].pc.Checking?
    requires PcIds(s.store, s.writers[w].pc)
    ensures |s'.writers| == |s.writers|
  {
    var tip := s.writers[w].pc.tip;
    match Try(TreeOf(s.store, tip), s.writers[w].call.plan)
    case Failed(e) => Reject(s, w, e)
    case NoChange =>
      if tip.Some? then Leave(s, w, Unchanged(tip.value)) else Reject(s, w, Other(UnbornBranch))
    case Built(tree) =>
      Goto(s.(store := s.store + [Commit(tree, TipParents(tip))]), w, Ready(tip, |s.store|))
  }

  /** A lost race sends a changeset back to read the tip again, until its retries are used up. */
  function CompareAndSwap(s: State, w: WriterId, changed: seq<Path>): (s': State)
    requires At(s, w) && s.writers[w].pc.Ready? && s.hist != []
    ensures |s'.writers| == |s.writers|
  {
    var pc := s.writers[w].pc;
    if s.head == pc.tip then
      var moved := s.(head := Some(pc.commit), hist := s.hist + [Entry(Some(pc.commit), By(w))]);
      moved.(writers := s.writers[w := s.writers[w].(pc := Revealing(pc.tip, pc.commit, changed, 0),
                                                       landed := Some(|s.hist| - 1))])
    else if s.writers[w].call.MergeBack? then Reject(s, w, Concurrency(RefMoved))
    else
      var losses := s.writers[w].losses + [|s.hist| - 1];
      s.(writers := s.writers[w := s.writers[w].(losses := losses, pc := AfterLoss(losses, s.writers[w].call.Budget()))])
  }

  /** Where a changeset goes after a lost race. */
  function AfterLoss(losses: seq<nat>, budget: nat): Pc {
    if |losses| == budget + 1 then Leaving(Rejected(Other(RetriesExhausted))) else Entered
  }

  /** A failed rename removes its temporary file; other failures leave the disk as it is. */
  function CleanUp(s: State, w: WriterId): Disk
    requires At(s, w) && PcIds(s.store, s.writers[w].pc)
  {
    var pc := s.writers[w].pc;
    if pc.Revealing? && pc.done < |ScriptOf(s, w)| && ScriptOf(s, w)[pc.done].RenameTemp? && s.disk.temps != [] then
      s.disk.(temps := s.disk.temps[..|s.disk.temps| - 1])
    else s.disk
  }

  // ---------------------------------------------------------------------------------------------
  // Runs
  // ---------------------------------------------------------------------------------------------

  ghost predicate Initial(s: State) {
    && WellFormed(s.store) && ValidTip(s.store, s.head)
    && s.lock.None? && s.fans == map[] && s.hooks == []
    && s.hist == [Entry(s.head, Start)]
    && forall w :: 0 <= w < |s.writers| ==> Fresh(s.writers[w])
  }

  predicate Fresh(writer: Writer) {
    writer.pc.Waiting? && writer.entry == 0 && writer.seen == [] && writer.losses == [] && writer.landed.None?
  }

  ghost predicate Next(s: State, step: Step, s': State) {
    ValidIds(s) && Enabled(s, step) && s' == Apply(s, step)
  }

  /** Consecutive states related by the given steps. */
  ghost predicate Segment(states: seq<State>, steps: seq<Step>) {
    && |states| == |steps| + 1
    && forall i :: 0 <= i < |steps| ==> Next(states[i], steps[i], states[i + 1])
  }

  ghost predicate Run(states: seq<State>, steps: seq<Step>) {
    Segment(states, steps) && Initial(states[0])
  }
}
