/** Guarantees of the log over whole runs: any interleaving, any number of crashes. */
module LogTheorems {
  import opened Wrappers
  import opened Params
  import opened Storage
  import opened Recovery
  import opened LogCore
  import opened LogMachine
  import opened LogInvariant
  import opened LogSteps

  /** A machine just switched on over disk `d`. */
  function PowerOn(d: Disk): State {
    State(d, map[], NEW_TX, Boot, [], [], [])
  }

  function Run(lay: Layout, budget: nat, s: State, steps: seq<Step>): Option<State>
    decreases |steps|
  {
    if steps == [] then Some(s)
    else if !LogOk(lay, s.disk) then None
    else match Do(lay, budget, s, steps[0])
      case None => None
      case Some(s') => Run(lay, budget, s', steps[1..])
  }

  lemma PowerOnOk(lay: Layout, budget: nat, d: Disk)
    requires LogOk(lay, d) && Roomy(lay.size, budget)
    ensures Inv(lay, budget, Mounted(lay, d), PowerOn(d))
  {
    hide HeaderBlocks, HeaderCount, Effective;
    assert forall o: nat :: Whole(o, [], []);
  }

  lemma {:induction false} RunInv(lay: Layout, budget: nat, base: Disk, s: State, steps: seq<Step>)
    requires Inv(lay, budget, base, s) && Run(lay, budget, s, steps).Some?
    ensures Inv(lay, budget, base, Run(lay, budget, s, steps).value)
    decreases |steps|
  {
    if steps != [] {
      var s' := Do(lay, budget, s, steps[0]).value;
      StepKeeps(lay, budget, base, s, steps[0], s');
      hide Inv, Do;
      RunInv(lay, budget, base, s', steps[1..]);
    }
  }

  /** `s` can be reached from switching on over disk `d`. */
  ghost predicate Reached(lay: Layout, budget: nat, d: Disk, steps: seq<Step>, s: State) {
    LogOk(lay, d) && Roomy(lay.size, budget) && Run(lay, budget, PowerOn(d), steps) == Some(s)
  }

  lemma ReachedInv(lay: Layout, budget: nat, d: Disk, steps: seq<Step>, s: State)
    requires Reached(lay, budget, d, steps, s)
    ensures Inv(lay, budget, Mounted(lay, d), s)
  {
    PowerOnOk(lay, budget, d);
    hide Inv;
    RunInv(lay, budget, Mounted(lay, d), PowerOn(d), steps);
  }

  /** Whole-run refinement. Pull the plug in any reachable state and recover, through any further crashes:
      every home block holds the mounted disk with the committed groups, and nothing else, applied. */
  lemma RecoveredDiskIsCommittedGroups(lay: Layout, budget: nat, d: Disk, steps: seq<Step>, s: State, cuts: seq<nat>)
    requires Reached(lay, budget, d, steps, s)
    ensures LogOk(lay, s.disk)
    ensures var r := Recover(lay, Attempts(lay, s.disk, cuts));
      |r| == |d| && forall b: nat :: Home(lay, d, b) ==> r[b] == ApplyGroups(Mounted(lay, d), s.groups)[b]
  {
    ReachedInv(lay, budget, d, steps, s);
    hide HeaderBlocks, HeaderCount, Effective, Recover, Attempts, LogOk, HistoryOk, TxInv, CacheOk, PhaseOk;
    RecoveryIsIdempotent(lay, s.disk, cuts);
  }

  /** While the system is up, reading a block returns the last write any operation made to it. */
  lemma ReadsSeeLastWrite(lay: Layout, budget: nat, d: Disk, steps: seq<Step>, s: State)
    requires Reached(lay, budget, d, steps, s) && s.phase.Up()
    ensures |s.disk| == |d| && forall b: nat :: Home(lay, d, b) ==>
      Content(s, b) == ApplyEvents(ApplyGroups(Mounted(lay, d), s.groups), s.group)[b]
  {
    ReachedInv(lay, budget, d, steps, s);
    hide HeaderBlocks, HeaderCount, Effective, LogOk, HistoryOk, TxInv, CacheOk, PhaseOk;
  }

  /** A buffer may be recycled exactly when nothing would be lost: unreferenced loaded buffers equal the
      disk, and a buffer that differs from the disk is referenced. */
  lemma RecyclingLosesNothing(lay: Layout, budget: nat, d: Disk, steps: seq<Step>, s: State, b: nat)
    requires Reached(lay, budget, d, steps, s) && b in s.cache && s.cache[b].valid
    ensures b < |s.disk|
    ensures s.cache[b].RefCount() == 0 ==> s.cache[b].data == s.disk[b]
    ensures s.cache[b].data != s.disk[b] ==> s.cache[b].pins == 1 && b in s.tx.log.lh
  {
    ReachedInv(lay, budget, d, steps, s);
    hide HeaderBlocks, HeaderCount, Effective, LogOk, HistoryOk, TxInv, PhaseOk;
    IndexOfIn(s.tx.log.lh, b);
  }

  /** The log's state machine: who may be inside a commit, and who holds a pin. */
  lemma LogDiscipline(lay: Layout, budget: nat, d: Disk, steps: seq<Step>, s: State)
    requires Reached(lay, budget, d, steps, s) && s.phase.Up()
    ensures s.tx.log.outstanding == |s.tx.ops|
    ensures s.tx.log.committing ==> s.tx.log.outstanding == 0
    ensures s.tx.log.outstanding == 0 && !s.tx.log.committing ==> s.tx.log.lh == [] && Admits(s.tx.log)
    ensures Distinct(s.tx.log.lh) && |s.tx.log.lh| <= Reach(budget)
    ensures forall b: nat :: b in s.tx.log.lh && s.phase.Unlogged() ==> b in s.cache && s.cache[b].pins == 1
    ensures forall b: nat :: b in s.cache && b !in s.tx.log.lh ==> s.cache[b].pins == 0
  {
    ReachedInv(lay, budget, d, steps, s);
    hide HeaderBlocks, HeaderCount, Effective, LogOk, HistoryOk;
    SlackBounds(budget, s.tx.ops);
    forall b: nat ensures IndexOf(s.tx.log.lh, b) < |s.tx.log.lh| <==> b in s.tx.log.lh {
      IndexOfIn(s.tx.log.lh, b);
    }
  }

  /** No operation is ever split: a committed group holds all the writes an operation ever made, or none,
      and no operation shows up in two groups. */
  lemma OperationsAreAtomic(lay: Layout, budget: nat, d: Disk, steps: seq<Step>, s: State, o: nat, j: nat, k: nat)
    requires Reached(lay, budget, d, steps, s) && j < |s.groups| && k < |s.groups|
    ensures EventsOf(o, s.groups[j]) != [] ==> EventsOf(o, s.groups[j]) == EventsOf(o, s.history)
    ensures j != k ==> EventsOf(o, s.groups[j]) == [] || EventsOf(o, s.groups[k]) == []
    ensures EventsOf(o, s.groups[j]) != [] ==> forall i :: 0 <= i < |s.tx.ops| ==> s.tx.ops[i].id != o
  {
    ReachedInv(lay, budget, d, steps, s);
    hide HeaderBlocks, HeaderCount, Effective, LogOk, EventsOf, PhaseOk, CacheOk, TxInv;
    assert Whole(o, s.groups[j], s.history);
  }

  /** As long as every block_read finds a buffer, commit and recovery always have a next step. The buffers are not
      bounded here: when commit does sleep for ever over the real cache is CommitStarved.CommitSticksIff. */
  lemma AdvanceNeverSticks(lay: Layout, budget: nat, d: Disk, steps: seq<Step>, s: State)
    requires Reached(lay, budget, d, steps, s) && !s.phase.Running?
    ensures LogOk(lay, s.disk) && DoAdvance(lay, s).Some?
  {
    ReachedInv(lay, budget, d, steps, s);
    hide Reached, Mounted;
    NextStep(lay, budget, Mounted(lay, d), s);
  }

  lemma LoggedHome(lay: Layout, budget: nat, base: Disk, s: State)
    requires Inv(lay, budget, base, s) && !s.phase.Running? && !s.phase.Boot?
    ensures Loggable(lay, s.disk, s.tx.log.lh) && Fits(lay, s.disk)
  {
    hide HeaderBlocks, HeaderCount, Effective, HistoryOk, CacheOk, TxInv, Installed, DurableOk, VisibleOk, SlotsHold, GroupLogged;
  }

  lemma HomesFit(lay: Layout, d: Disk, lh: seq<nat>)
    requires Loggable(lay, d, lh) && Fits(lay, d)
    ensures |lh| <= LOGSIZE && forall i :: 0 <= i < |lh| ==> lh[i] < |d| && lay.Slot(i) < |d|
  {
    assert forall i :: 0 <= i < |lh| ==> Home(lay, d, lh[i]);
  }

  lemma PhaseFacts(lay: Layout, budget: nat, base: Disk, s: State)
    requires Inv(lay, budget, base, s)
    ensures LogOk(lay, s.disk)
    ensures s.phase.ClearHead? || s.phase.EndCommit? ==> s.tx.log.committing
    ensures s.phase.EndCommit? ==> s.tx.log.lh == []
  {
    hide HeaderBlocks, HeaderCount, Effective, HistoryOk, CacheOk, TxInv, Installed, VisibleOk, SlotsHold, GroupLogged, Loggable, Fits;
  }

  lemma NextStep(lay: Layout, budget: nat, base: Disk, s: State)
    requires Inv(lay, budget, base, s) && !s.phase.Running?
    ensures LogOk(lay, s.disk) && DoAdvance(lay, s).Some?
  {
    hide Inv, HeaderBlocks, HeaderCount, WriteBlock, Read, LogOk, Loggable, Fits, Content, HeaderFor, Unpin;
    PhaseFacts(lay, budget, base, s);
    if !s.phase.Boot? {
      LoggedHome(lay, budget, base, s);
      HomesFit(lay, s.disk, s.tx.log.lh);
    }
  }

  // ---- durability ---------------------------------------------------------

  lemma StepGroups(lay: Layout, budget: nat, base: Disk, s: State, step: Step, s': State)
    requires Inv(lay, budget, base, s) && Do(lay, budget, s, step) == Some(s')
    ensures s.groups <= s'.groups
    ensures (s.phase.CommitSlot? || s.phase.CommitHead?) && step != Crash ==>
      if s'.phase.CommitSlot? || s'.phase.CommitHead? then s'.group == s.group && s'.groups == s.groups
      else s'.groups == s.groups + [s.group]
  {
    hide HeaderBlocks, HeaderCount, Effective, HistoryOk, Read, CacheOk, DurableOk, VisibleOk, LogOk, Loggable,
      SlotsHold, Slack, Distinct, Installed, HeaderFor;
  }

  /** Committed groups stay: nothing, a crash included, ever removes or reorders them. */
  lemma {:induction false} GroupsOnlyGrow(lay: Layout, budget: nat, base: Disk, s: State, steps: seq<Step>)
    requires Inv(lay, budget, base, s) && Run(lay, budget, s, steps).Some?
    ensures s.groups <= Run(lay, budget, s, steps).value.groups
    decreases |steps|
  {
    if steps != [] {
      var s' := Do(lay, budget, s, steps[0]).value;
      StepKeeps(lay, budget, base, s, steps[0], s');
      StepGroups(lay, budget, base, s, steps[0], s');
      hide Inv, Do;
      GroupsOnlyGrow(lay, budget, base, s', steps[1..]);
    }
  }

  /** A commit that has passed its header write, no crash having come before that, has added its group. */
  lemma {:induction false} CommitPasses(lay: Layout, budget: nat, base: Disk, s: State, steps: seq<Step>, s': State)
    requires Inv(lay, budget, base, s) && (s.phase.CommitSlot? || s.phase.CommitHead?)
    requires Run(lay, budget, s, steps) == Some(s') && Crash !in steps
    requires !s'.phase.CommitSlot? && !s'.phase.CommitHead?
    ensures s.groups + [s.group] <= s'.groups
    decreases |steps|
  {
    if steps != [] {
      var s1 := Do(lay, budget, s, steps[0]).value;
      StepKeeps(lay, budget, base, s, steps[0], s1);
      StepGroups(lay, budget, base, s, steps[0], s1);
      assert steps[0] != Crash;
      hide Inv, Do;
      if s1.phase.CommitSlot? || s1.phase.CommitHead? {
        CommitPasses(lay, budget, base, s1, steps[1..], s');
      } else {
        GroupsOnlyGrow(lay, budget, base, s1, steps[1..]);
      }
    }
  }

  /** Once the commit that log_end_op started has passed its header write, its group is committed for good,
      as the next one, whatever happens afterwards, crashes included. */
  lemma FinishedCommitIsDurable(lay: Layout, budget: nat, base: Disk, s: State, steps: seq<Step>, s': State,
                                later: seq<Step>, s'': State)
    requires Inv(lay, budget, base, s) && (s.phase.CommitSlot? || s.phase.CommitHead?)
    requires Run(lay, budget, s, steps) == Some(s') && Crash !in steps
    requires !s'.phase.CommitSlot? && !s'.phase.CommitHead?
    requires Run(lay, budget, s', later) == Some(s'')
    ensures s.groups + [s.group] <= s''.groups
  {
    hide Inv, Run;
    RunInv(lay, budget, base, s, steps);
    CommitPasses(lay, budget, base, s, steps, s');
    GroupsOnlyGrow(lay, budget, base, s', later);
  }
}
