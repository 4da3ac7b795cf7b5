/** What the whole-run guarantees of the log say about the steps taken: nothing here mentions the machine's own
    records of groups and history. */
module LogMeaning {
  import opened Wrappers
  import opened Params
  import opened Storage
  import opened Recovery
  import opened LogCore
  import opened LogMachine
  import opened LogInvariant
  import opened LogSteps
  import opened LogTheorems

  // ---- what the list of steps says ----------------------------------------

  /** The operations open, the number begun so far, and every write with the operation that made it. */
  datatype Trace = Trace(open: seq<nat>, begun: nat, events: seq<Event>)

  const NO_TRACE := Trace([], 0, [])

  function TraceStep(t: Trace, step: Step): Trace {
    if step.Begin? then Trace(t.open + [t.begun], t.begun + 1, t.events)
    else if step.Update? && step.i < |t.open| then t.(events := t.events + [Event(t.open[step.i], step.block, step.data)])
    else if step.End? && step.i < |t.open| then t.(open := Without(t.open, step.i))
    else if step.Crash? then t.(open := [])
    else t
  }

  function TraceFrom(t: Trace, steps: seq<Step>): Trace
    decreases |steps|
  {
    if steps == [] then t else TraceFrom(TraceStep(t, steps[0]), steps[1..])
  }

  /** The block and data of each Update, in order. */
  function Updates(steps: seq<Step>): seq<Write>
    decreases |steps|
  {
    if steps == [] then []
    else (if steps[0].Update? then [Write(steps[0].block, steps[0].data)] else []) + Updates(steps[1..])
  }

  function Writes(es: seq<Event>): (ws: seq<Write>)
    ensures |ws| == |es|
  {
    seq(|es|, i requires 0 <= i < |es| => Write(es[i].block, es[i].data))
  }

  lemma LastNext(steps: seq<Step>, b: nat, before: Block)
    requires steps != []
    ensures LastData(Updates(steps), b, before) ==
      LastData(Updates(steps[1..]), b, if steps[0].Update? && steps[0].block == b then steps[0].data else before)
  {
    if steps[0].Update? {
      assert Updates(steps)[1..] == Updates(steps[1..]);
    } else {
      assert Updates(steps) == Updates(steps[1..]);
    }
  }

  // ---- the machine's history is the steps' --------------------------------

  ghost predicate Agrees(s: State, t: Trace) {
    && |s.tx.ops| == |t.open| && s.tx.nextId == t.begun && s.history == t.events
    && forall i :: 0 <= i < |t.open| ==> s.tx.ops[i].id == t.open[i]
  }

  lemma AdvanceAgrees(lay: Layout, s: State, s': State)
    requires LogOk(lay, s.disk) && DoAdvance(lay, s) == Some(s')
    ensures s'.tx.ops == s.tx.ops && s'.tx.nextId == s.tx.nextId && s'.history == s.history
  {
    hide HeaderBlocks, HeaderCount, LogOk, Content, HeaderFor, BufOf;
  }

  lemma StepAgrees(lay: Layout, budget: nat, s: State, step: Step, s': State, t: Trace)
    requires LogOk(lay, s.disk) && Do(lay, budget, s, step) == Some(s') && Agrees(s, t)
    ensures Agrees(s', TraceStep(t, step))
    ensures Writes(s'.history) == Writes(s.history) + if step.Update? then [Write(step.block, step.data)] else []
  {
    if step.Advance? {
      AdvanceAgrees(lay, s, s');
    }
    hide LogOk, DoAdvance, LogWrite, BufOf, Admits, EndOp;
  }

  lemma RunNext(lay: Layout, budget: nat, s: State, steps: seq<Step>, s': State)
    requires Run(lay, budget, s, steps) == Some(s') && steps != []
    ensures LogOk(lay, s.disk) && Do(lay, budget, s, steps[0]).Some?
    ensures Run(lay, budget, Do(lay, budget, s, steps[0]).value, steps[1..]) == Some(s')
  {
    hide Do, LogOk;
  }

  lemma RunNone(lay: Layout, budget: nat, s: State, t: Trace, steps: seq<Step>)
    requires steps == []
    ensures Run(lay, budget, s, steps) == Some(s) && TraceFrom(t, steps) == t && Updates(steps) == []
  {
  }

  lemma StepsNext(t: Trace, steps: seq<Step>)
    requires steps != []
    ensures TraceFrom(t, steps) == TraceFrom(TraceStep(t, steps[0]), steps[1..])
    ensures Updates(steps) == (if steps[0].Update? then [Write(steps[0].block, steps[0].data)] else []) + Updates(steps[1..])
  {
  }

  lemma {:induction false} RunAgrees(lay: Layout, budget: nat, s: State, steps: seq<Step>, s': State, t: Trace)
    requires Run(lay, budget, s, steps) == Some(s') && Agrees(s, t)
    ensures Agrees(s', TraceFrom(t, steps)) && Writes(s'.history) == Writes(s.history) + Updates(steps)
    decreases |steps|
  {
    hide Do, Run, Agrees, Writes, LogOk, TraceFrom, TraceStep, Updates;
    if steps == [] {
      RunNone(lay, budget, s, t, steps);
    } else {
      RunNext(lay, budget, s, steps, s');
      StepsNext(t, steps);
      var s1 := Do(lay, budget, s, steps[0]).value;
      StepAgrees(lay, budget, s, steps[0], s1, t);
      RunAgrees(lay, budget, s1, steps[1..], s', TraceStep(t, steps[0]));
    }
  }

  /** The history the groups are cut from is exactly the Update steps of the run, in order, each with its own block
      and data, attributed to the operation open at its index; and the open operations are those begun and not
      ended since the last crash. */
  lemma HistoryIsTheSteps(lay: Layout, budget: nat, d: Disk, steps: seq<Step>, s: State)
    requires Reached(lay, budget, d, steps, s)
    ensures Writes(s.history) == Updates(steps) && s.history == TraceFrom(NO_TRACE, steps).events
    ensures var open := TraceFrom(NO_TRACE, steps).open;
      |s.tx.ops| == |open| && forall i :: 0 <= i < |open| ==> s.tx.ops[i].id == open[i]
  {
    RunAgrees(lay, budget, PowerOn(d), steps, s, NO_TRACE);
    hide Run, LogOk;
  }

  // ---- who holds a buffer -------------------------------------------------

  /** References to the buffer of `b` taken by block_read and not given back, `n` at the start; memory is lost in a crash. */
  function Outstanding(steps: seq<Step>, b: nat, n: int): int
    decreases |steps|
  {
    if steps == [] then n
    else
      var step := steps[0];
      Outstanding(steps[1..], b,
                  if step == Get(b) then n + 1 else if step == Put(b) then n - 1 else if step.Crash? then 0 else n)
  }

  function Holders(s: State, b: nat): nat { if b in s.cache then s.cache[b].holders else 0 }

  lemma AdvanceHolders(lay: Layout, s: State, s': State, b: nat)
    requires LogOk(lay, s.disk) && DoAdvance(lay, s) == Some(s')
    ensures Holders(s', b) == Holders(s, b)
  {
    assert lay.start < |s.disk|;
    hide LogOk, HeaderBlocks, HeaderCount, HeaderFor, DoTx, Content;
  }

  lemma StepHolders(lay: Layout, budget: nat, s: State, step: Step, s': State, b: nat)
    requires LogOk(lay, s.disk) && Do(lay, budget, s, step) == Some(s')
    ensures Holders(s', b) ==
      if step == Get(b) then Holders(s, b) + 1 else if step == Put(b) then Holders(s, b) - 1
      else if step.Crash? then 0 else Holders(s, b)
  {
    if step.Advance? {
      AdvanceHolders(lay, s, s', b);
    }
    hide LogOk, DoAdvance, DoTx;
  }

  /** In every run the users' share of a buffer's count is the block_reads less the block_releases of it. */
  lemma {:induction false} HoldersAreCounted(lay: Layout, budget: nat, s: State, steps: seq<Step>, s': State, b: nat)
    requires Run(lay, budget, s, steps) == Some(s')
    ensures Holders(s', b) == Outstanding(steps, b, Holders(s, b))
    decreases |steps|
  {
    if steps != [] {
      var s1 := Do(lay, budget, s, steps[0]).value;
      StepHolders(lay, budget, s, steps[0], s1, b);
      hide Do, Holders, LogOk;
      HoldersAreCounted(lay, budget, s1, steps[1..], s', b);
    }
  }

  /** Recycling takes away a buffer nobody holds, and no reader can tell. */
  lemma RecyclingUnnoticed(lay: Layout, budget: nat, d: Disk, steps: seq<Step>, s: State, b: nat, s': State)
    requires Reached(lay, budget, d, steps, s) && LogOk(lay, s.disk) && Do(lay, budget, s, Evict(b)) == Some(s')
    ensures b in s.cache && Holders(s, b) == 0 && b !in s'.cache && s'.disk == s.disk
    ensures forall x: nat :: x < |s.disk| ==> Content(s', x) == Content(s, x)
    ensures forall x: nat :: x in s.cache && x != b ==> x in s'.cache && s'.cache[x] == s.cache[x]
  {
    ReachedInv(lay, budget, d, steps, s);
    hide HeaderBlocks, HeaderCount, Effective, LogOk, HistoryOk, TxInv, PhaseOk, Loggable, GroupLogged, SlotsHold, DurableOk,
      VisibleOk, Roomy;
    CacheStepView(lay, s, Evict(b), s');
  }

  // ---- what readers see ---------------------------------------------------

  /** Block `b` to a reader; before the system is up, to the first reader after recovery. */
  function Seen(lay: Layout, s: State, b: nat): Block
    requires LogOk(lay, s.disk) && b < |s.disk|
  {
    if s.phase.Up() then Content(s, b) else Recover(lay, s.disk)[b]
  }

  function Logged(base: Disk, s: State): (r: Disk)
    ensures |r| == |base|
  {
    ApplyEvents(ApplyGroups(base, s.groups), s.group)
  }

  lemma SeenIsLogged(lay: Layout, budget: nat, base: Disk, s: State, b: nat)
    requires Inv(lay, budget, base, s) && Home(lay, s.disk, b)
    ensures |base| == |s.disk| && Seen(lay, s, b) == Logged(base, s)[b]
  {
    hide HeaderBlocks, HeaderCount, Effective, Recover, Read, HistoryOk, TxInv, CacheOk, LogOk, Loggable, GroupLogged,
      SlotsHold, Roomy, Installed;
    if !s.phase.Up() {
      assert s.group == [];
      RecoveryIsIdempotent(lay, s.disk, []);
    }
  }

  lemma AdvanceLogged(lay: Layout, base: Disk, s: State, s': State)
    requires LogOk(lay, s.disk) && DoAdvance(lay, s) == Some(s')
    ensures Logged(base, s') == Logged(base, s) && |s'.disk| == |s.disk|
    ensures if s.phase.CommitHead? then s'.groups == s.groups + [s.group] && s'.group == []
      else s'.groups == s.groups && s'.group == s.group
  {
    hide ApplyEvents, ApplyGroups, Logged;
    AdvanceGroups(lay, s, s');
    SameLogged(base, s, s');
  }

  lemma AdvanceGroups(lay: Layout, s: State, s': State)
    requires LogOk(lay, s.disk) && DoAdvance(lay, s) == Some(s')
    ensures |s'.disk| == |s.disk|
    ensures if s.phase.CommitHead? then s'.groups == s.groups + [s.group] && s'.group == []
      else s'.groups == s.groups && s'.group == s.group
  {
    assert lay.start < |s.disk|;
    hide LogOk, HeaderBlocks, HeaderCount, BufOf, HeaderFor, DoTx, Content;
  }

  lemma SameLogged(base: Disk, s: State, s': State)
    requires (s'.groups == s.groups + [s.group] && s'.group == []) || (s'.groups == s.groups && s'.group == s.group)
    ensures Logged(base, s') == Logged(base, s)
  {
    if s'.groups != s.groups {
      assert s'.groups[..|s.groups|] == s.groups;
    }
  }

  lemma StepLogged(lay: Layout, budget: nat, base: Disk, s: State, step: Step, s': State)
    requires LogOk(lay, s.disk) && Do(lay, budget, s, step) == Some(s') && step != Crash && |base| == |s.disk|
    ensures Logged(base, s') ==
      if step.Update? && step.block < |base| then Logged(base, s)[step.block := step.data] else Logged(base, s)
    ensures |s'.disk| == |s.disk|
  {
    hide LogOk, DoAdvance, DoTx, BufOf, ApplyGroups;
    if step.Advance? {
      hide Logged;
      AdvanceLogged(lay, base, s, s');
    } else if step.Update? {
      assert s'.group[..|s.group|] == s.group;
    }
  }

  lemma {:induction false} StretchLogged(lay: Layout, budget: nat, base: Disk, s: State, steps: seq<Step>, s': State, b: nat)
    requires Inv(lay, budget, base, s) && Run(lay, budget, s, steps) == Some(s') && Crash !in steps && Home(lay, s.disk, b)
    ensures |s'.disk| == |s.disk| == |base| && Logged(base, s')[b] == LastData(Updates(steps), b, Logged(base, s)[b])
    decreases |steps|
  {
    SeenIsLogged(lay, budget, base, s, b);
    if steps == [] {
      assert Updates(steps) == [];
    } else {
      var s1 := Do(lay, budget, s, steps[0]).value;
      StepKeeps(lay, budget, base, s, steps[0], s1);
      assert steps[0] != Crash;
      StepLogged(lay, budget, base, s, steps[0], s1);
      LastNext(steps, b, Logged(base, s)[b]);
      hide Inv, Do, Logged, Updates, LastData;
      StretchLogged(lay, budget, base, s1, steps[1..], s', b);
    }
  }

  /** From any reachable state on, as long as the power stays on, a reader finds in each home block the data of the
      last Update of it, or what it held before. */
  lemma ReadsSeeLastUpdate(lay: Layout, budget: nat, d: Disk, before: seq<Step>, s: State, steps: seq<Step>, s': State, b: nat)
    requires Reached(lay, budget, d, before, s) && Run(lay, budget, s, steps) == Some(s') && Crash !in steps
    requires Home(lay, d, b)
    ensures LogOk(lay, s.disk) && LogOk(lay, s'.disk) && |s.disk| == |s'.disk| == |d|
    ensures Seen(lay, s', b) == LastData(Updates(steps), b, Seen(lay, s, b))
  {
    var base := Mounted(lay, d);
    ReachedInv(lay, budget, d, before, s);
    RunInv(lay, budget, base, s, steps);
    InvDisk(lay, budget, base, s);
    InvDisk(lay, budget, base, s');
    hide Inv, Run, Seen, Logged, LogOk;
    SeenIsLogged(lay, budget, base, s, b);
    StretchLogged(lay, budget, base, s, steps, s', b);
    SeenIsLogged(lay, budget, base, s', b);
  }

  lemma InvDisk(lay: Layout, budget: nat, base: Disk, s: State)
    requires Inv(lay, budget, base, s)
    ensures LogOk(lay, s.disk) && |s.disk| == |base|
  {
    hide HeaderBlocks, HeaderCount, Effective, HistoryOk, TxInv, CacheOk, Loggable, GroupLogged, SlotsHold, PhaseOk, VisibleOk;
  }

  // ---- what survives a crash ----------------------------------------------

  /** No operation open and no commit under way. */
  predicate Settled(s: State) { s.phase.Running? && s.tx.ops == [] }

  lemma {:induction false} RunLast(lay: Layout, budget: nat, s: State, steps: seq<Step>, s': State) returns (s1: State)
    requires Run(lay, budget, s, steps) == Some(s') && steps != []
    ensures Run(lay, budget, s, steps[..|steps| - 1]) == Some(s1)
    ensures LogOk(lay, s1.disk) && Do(lay, budget, s1, steps[|steps| - 1]) == Some(s')
    decreases |steps|
  {
    hide Do, LogOk;
    var n := |steps| - 1;
    if n == 0 {
      s1 := s;
      assert steps[1..] == [];
    } else {
      var next := Do(lay, budget, s, steps[0]).value;
      s1 := RunLast(lay, budget, next, steps[1..], s');
      assert steps[..n][1..] == steps[1..][..n - 1];
    }
  }

  lemma SettledGroup(lay: Layout, budget: nat, base: Disk, s: State)
    requires Inv(lay, budget, base, s) && Settled(s)
    ensures Logged(base, s) == ApplyGroups(base, s.groups)
  {
    hide HeaderBlocks, HeaderCount, Effective, HistoryOk, CacheOk, LogOk, Loggable, SlotsHold, VisibleOk, DurableOk, Roomy;
    NothingLogged(s.group, s.tx.log.lh);
  }

  lemma NothingLogged(group: seq<Event>, lh: seq<nat>)
    requires GroupLogged(group, lh)
    ensures group != [] ==> lh != []
  {
    if group != [] {
      assert group[0].block in lh;
    }
  }

  lemma HeaderClosesGroup(lay: Layout, budget: nat, base: Disk, s: State, s': State)
    requires Inv(lay, budget, base, s) && LogOk(lay, s.disk) && s.phase.CommitHead? && DoAdvance(lay, s) == Some(s')
    ensures s'.tx.ops == [] && Logged(base, s') == ApplyGroups(base, s'.groups) && s'.phase == Install(0)
  {
    hide HeaderBlocks, HeaderCount, Effective, HistoryOk, CacheOk, Loggable, SlotsHold, VisibleOk, DurableOk, Roomy,
      Content, HeaderFor, BufOf, ApplyGroups;
  }

  lemma StepGroupsStay(lay: Layout, budget: nat, s: State, step: Step, s': State)
    requires LogOk(lay, s.disk) && Do(lay, budget, s, step) == Some(s') && !(s.phase.CommitHead? && step.Advance?)
    ensures s'.groups == s.groups
  {
    if step.Advance? {
      AdvanceLogged(lay, s.disk, s, s');
    }
    hide LogOk, DoAdvance, DoTx, BufOf, ApplyGroups, ApplyEvents;
  }

  /** The k-th state of the run, with no operation open, after which the run never was settled. */
  ghost predicate LastMoment(lay: Layout, budget: nat, d: Disk, steps: seq<Step>, k: nat, q: State) {
    && k <= |steps| && Reached(lay, budget, d, steps[..k], q) && q.tx.ops == []
    && forall j: nat, p :: k < j <= |steps| && Reached(lay, budget, d, steps[..j], p) ==> !Settled(p)
  }

  lemma NewMoment(lay: Layout, budget: nat, d: Disk, steps: seq<Step>, s: State)
    requires Reached(lay, budget, d, steps, s) && s.tx.ops == []
    ensures LastMoment(lay, budget, d, steps, |steps|, s)
  {
    hide Reached;
    assert steps[..|steps|] == steps;
  }

  lemma SameMoment(lay: Layout, budget: nat, d: Disk, steps: seq<Step>, s: State, k: nat, q: State)
    requires steps != [] && Reached(lay, budget, d, steps, s) && !Settled(s)
    requires LastMoment(lay, budget, d, steps[..|steps| - 1], k, q)
    ensures LastMoment(lay, budget, d, steps, k, q)
  {
    var init := steps[..|steps| - 1];
    assert init[..k] == steps[..k];
    forall j: nat, p | k < j <= |steps| && Reached(lay, budget, d, steps[..j], p) ensures !Settled(p) {
      if j < |steps| {
        assert init[..j] == steps[..j];
      } else {
        assert steps[..j] == steps;
      }
    }
  }

  lemma StepBefore(lay: Layout, budget: nat, d: Disk, steps: seq<Step>, s: State) returns (s1: State)
    requires Reached(lay, budget, d, steps, s) && steps != []
    ensures Reached(lay, budget, d, steps[..|steps| - 1], s1) && Inv(lay, budget, Mounted(lay, d), s1)
    ensures LogOk(lay, s1.disk) && Do(lay, budget, s1, steps[|steps| - 1]) == Some(s)
  {
    s1 := RunLast(lay, budget, PowerOn(d), steps, s);
    ReachedInv(lay, budget, d, steps[..|steps| - 1], s1);
    hide Inv, Run, Do;
  }

  lemma DoAdvances(lay: Layout, budget: nat, s: State)
    requires LogOk(lay, s.disk)
    ensures Do(lay, budget, s, Advance) == DoAdvance(lay, s)
  {
    hide DoAdvance;
  }

  lemma NothingYet(lay: Layout, budget: nat, d: Disk, steps: seq<Step>, s: State)
    requires Reached(lay, budget, d, steps, s) && steps == []
    ensures s.tx.ops == [] && ApplyGroups(Mounted(lay, d), s.groups) == Logged(Mounted(lay, d), s)
  {
    hide Mounted;
  }

  lemma {:induction false} CommittedMoment(lay: Layout, budget: nat, d: Disk, steps: seq<Step>, s: State) returns (k: nat, q: State)
    requires Reached(lay, budget, d, steps, s)
    ensures LastMoment(lay, budget, d, steps, k, q) && LogOk(lay, d)
    ensures ApplyGroups(Mounted(lay, d), s.groups) == Logged(Mounted(lay, d), q)
    decreases |steps|
  {
    assert LogOk(lay, d);
    hide Inv, LogOk, Reached, Run, Do, DoAdvance, ApplyGroups, Logged, LastMoment, Mounted;
    var base := Mounted(lay, d);
    ReachedInv(lay, budget, d, steps, s);
    if steps == [] {
      k, q := 0, s;
      NothingYet(lay, budget, d, steps, s);
      NewMoment(lay, budget, d, steps, s);
    } else {
      var n := |steps| - 1;
      var s1 := StepBefore(lay, budget, d, steps, s);
      if s1.phase.CommitHead? && steps[n].Advance? {
        DoAdvances(lay, budget, s1);
        HeaderClosesGroup(lay, budget, base, s1, s);
        NewMoment(lay, budget, d, steps, s);
        k, q := |steps|, s;
      } else if Settled(s) {
        SettledGroup(lay, budget, base, s);
        NewMoment(lay, budget, d, steps, s);
        k, q := |steps|, s;
      } else {
        StepGroupsStay(lay, budget, s1, steps[n], s);
        k, q := CommittedMoment(lay, budget, d, steps[..n], s1);
        SameMoment(lay, budget, d, steps, s, k, q);
      }
    }
  }

  /** Pull the plug in any reachable state and recover, through any further crashes: every home block holds what
      a reader saw at one moment of the run, the same for all blocks. At that moment no operation was open, and the
      system was never idle later: nothing that was committed before an idle moment is lost, and no operation's
      updates survive in part. */
  lemma RecoveredIsASnapshot(lay: Layout, budget: nat, d: Disk, steps: seq<Step>, s: State, cuts: seq<nat>)
    returns (k: nat, q: State)
    requires Reached(lay, budget, d, steps, s)
    ensures LastMoment(lay, budget, d, steps, k, q)
    ensures LogOk(lay, s.disk) && LogOk(lay, q.disk) && |s.disk| == |q.disk| == |d|
    ensures forall b: nat :: Home(lay, d, b) ==> Recover(lay, Attempts(lay, s.disk, cuts))[b] == Seen(lay, q, b)
  {
    var base := Mounted(lay, d);
    k, q := CommittedMoment(lay, budget, d, steps, s);
    RecoveredDiskIsCommittedGroups(lay, budget, d, steps, s, cuts);
    assert Reached(lay, budget, d, steps[..k], q);
    ReachedInv(lay, budget, d, steps, s);
    ReachedInv(lay, budget, d, steps[..k], q);
    InvDisk(lay, budget, base, s);
    InvDisk(lay, budget, base, q);
    hide Inv, Reached, LogOk, Logged, Seen, Recover, Attempts, ApplyGroups, LastMoment;
    forall b: nat | Home(lay, d, b) ensures Recover(lay, Attempts(lay, s.disk, cuts))[b] == Seen(lay, q, b) {
      SeenIsLogged(lay, budget, base, q, b);
    }
  }

  lemma SettledIsTheMoment(lay: Layout, budget: nat, d: Disk, steps: seq<Step>, s: State, k: nat, q: State)
    requires Reached(lay, budget, d, steps, s) && Settled(s) && LastMoment(lay, budget, d, steps, k, q)
    ensures q == s
  {
    assert steps[..|steps|] == steps;
    assert k == |steps|;
  }

  /** What a settled system shows is what it will show after any crash: all of its updates are durable. */
  lemma SettledIsDurable(lay: Layout, budget: nat, d: Disk, steps: seq<Step>, s: State, cuts: seq<nat>)
    requires Reached(lay, budget, d, steps, s) && Settled(s)
    ensures LogOk(lay, s.disk) && |s.disk| == |d|
    ensures forall b: nat :: Home(lay, d, b) ==> Recover(lay, Attempts(lay, s.disk, cuts))[b] == Content(s, b)
  {
    hide Reached, LogOk, Recover, Attempts, LastMoment, Content;
    var k, q := RecoveredIsASnapshot(lay, budget, d, steps, s, cuts);
    SettledIsTheMoment(lay, budget, d, steps, s, k, q);
  }

  // ---- every transaction can be made --------------------------------------

  /** How many steps commit or recovery still has to take. */
  function Rest(s: State): nat {
    var n := |s.tx.log.lh|;
    match s.phase
    case Running => 0
    case EndCommit => 1
    case ClearHead => 2
    case Install(t) => 3 + if t < n then n - t else 0
    case CommitHead => 4 + n
    case CommitSlot(t) => 5 + n + if t < n then n - t else 0
    case RecClear => 1
    case RecInstall(t) => 2 + if t < n then n - t else 0
    case Boot => 3 + LOGSIZE
  }

  lemma AdvanceProgresses(lay: Layout, s: State, s': State)
    requires LogOk(lay, s.disk) && DoAdvance(lay, s) == Some(s')
    ensures Rest(s') < Rest(s) && s'.tx.ops == s.tx.ops
  {
    assert lay.start < |s.disk|;
    hide LogOk, HeaderCount, BufOf, HeaderFor, Content, Unpin, WriteBlock;
    WritesKeepLog(s);
  }

  lemma WritesKeepLog(s: State)
    ensures forall b: nat, data :: b < |s.disk| ==> WriteBlock(s, b, data).tx == s.tx && WriteBlock(s, b, data).phase == s.phase
    ensures forall b: nat :: Unpin(s, b).tx == s.tx
    ensures forall b: nat, data, c: nat :: b < |s.disk| ==> Unpin(WriteBlock(s, b, data), c).tx == s.tx
  {
    hide BufOf;
  }

  lemma RunOne(lay: Layout, budget: nat, s: State, step: Step, s': State)
    requires LogOk(lay, s.disk) && Do(lay, budget, s, step) == Some(s')
    ensures Run(lay, budget, s, [step]) == Some(s')
  {
    hide Do, LogOk;
    assert [step][1..] == [];
  }

  lemma {:induction false} RunJoin(lay: Layout, budget: nat, s: State, a: seq<Step>, s1: State, b: seq<Step>, s2: State)
    requires Run(lay, budget, s, a) == Some(s1) && Run(lay, budget, s1, b) == Some(s2)
    ensures Run(lay, budget, s, a + b) == Some(s2)
    decreases |a|
  {
    hide Do, LogOk;
    if a == [] {
      assert a + b == b;
    } else {
      RunJoin(lay, budget, Do(lay, budget, s, a[0]).value, a[1..], s1, b, s2);
      assert (a + b)[1..] == a[1..] + b;
    }
  }

  lemma {:induction false} UpdatesJoin(a: seq<Step>, b: seq<Step>)
    ensures Updates(a + b) == Updates(a) + Updates(b)
    decreases |a|
  {
    if a == [] {
      assert a + b == b;
    } else {
      UpdatesJoin(a[1..], b);
      assert (a + b)[1..] == a[1..] + b;
    }
  }

  /** The run `steps`, without a crash, leads from `s` to `s'` and makes the writes `ws`. */
  ghost predicate Leads(lay: Layout, budget: nat, base: Disk, s: State, steps: seq<Step>, s': State, ws: seq<Write>) {
    Inv(lay, budget, base, s') && Run(lay, budget, s, steps) == Some(s') && Crash !in steps && Updates(steps) == ws
  }

  lemma LeadsNowhere(lay: Layout, budget: nat, base: Disk, s: State)
    requires Inv(lay, budget, base, s)
    ensures Leads(lay, budget, base, s, [], s, [])
  {
    hide Inv;
  }

  lemma LeadsOne(lay: Layout, budget: nat, base: Disk, s: State, step: Step, s': State)
    requires Inv(lay, budget, base, s) && LogOk(lay, s.disk) && Do(lay, budget, s, step) == Some(s') && step != Crash
    ensures Leads(lay, budget, base, s, [step], s', if step.Update? then [Write(step.block, step.data)] else [])
  {
    StepKeeps(lay, budget, base, s, step, s');
    RunOne(lay, budget, s, step, s');
    OneUpdate(step);
    hide Inv, Do, LogOk, Run, Updates;
  }

  lemma OneUpdate(step: Step)
    ensures Updates([step]) == if step.Update? then [Write(step.block, step.data)] else []
  {
    assert [step][1..] == [];
    assert Updates([step]) == (if step.Update? then [Write(step.block, step.data)] else []) + Updates([]);
  }

  lemma LeadsOn(lay: Layout, budget: nat, base: Disk, s: State, a: seq<Step>, s1: State, v: seq<Write>,
                b: seq<Step>, s2: State, w: seq<Write>)
    requires Leads(lay, budget, base, s, a, s1, v) && Leads(lay, budget, base, s1, b, s2, w)
    ensures Leads(lay, budget, base, s, a + b, s2, v + w)
  {
    hide Inv, Run;
    RunJoin(lay, budget, s, a, s1, b, s2);
    UpdatesJoin(a, b);
  }

  /** Commit and recovery come to their end. */
  lemma {:induction false} Finishes(lay: Layout, budget: nat, base: Disk, s: State) returns (steps: seq<Step>, s': State)
    requires Inv(lay, budget, base, s)
    ensures Leads(lay, budget, base, s, steps, s', []) && s'.phase.Running? && s'.tx.ops == s.tx.ops
    decreases Rest(s)
  {
    hide Inv, LogOk, DoAdvance, Rest, Leads;
    if s.phase.Running? {
      steps, s' := [], s;
      LeadsNowhere(lay, budget, base, s);
    } else {
      NextStep(lay, budget, base, s);
      DoAdvances(lay, budget, s);
      var s1 := DoAdvance(lay, s).value;
      AdvanceProgresses(lay, s, s1);
      LeadsOne(lay, budget, base, s, Advance, s1);
      AdvanceKeepsInv(lay, budget, base, s, s1);
      steps, s' := Finishes(lay, budget, base, s1);
      var none: seq<Write> := [];
      assert none + none == none;
      LeadsOn(lay, budget, base, s, [Advance], s1, none, steps, s', none);
      steps := [Advance] + steps;
    }
  }

  lemma AdvanceKeepsInv(lay: Layout, budget: nat, base: Disk, s: State, s': State)
    requires Inv(lay, budget, base, s) && LogOk(lay, s.disk) && DoAdvance(lay, s) == Some(s')
    ensures Inv(lay, budget, base, s')
  {
    hide Inv, LogOk, DoAdvance;
    DoAdvances(lay, budget, s);
    StepKeeps(lay, budget, base, s, Advance, s');
  }

  lemma CacheDo(lay: Layout, budget: nat, s: State, step: Step)
    requires LogOk(lay, s.disk) && (step.Get? || step.Load?)
    ensures Do(lay, budget, s, step) == DoCache(lay, s, step)
  {
    hide LogOk, DoCache;
  }

  lemma GetLeads(lay: Layout, budget: nat, base: Disk, s: State, b: nat) returns (s': State)
    requires Inv(lay, budget, base, s) && s.phase.Up() && Home(lay, s.disk, b)
    ensures Leads(lay, budget, base, s, [Get(b)], s', [])
    ensures s'.phase == s.phase && s'.tx == s.tx && s'.disk == s.disk && b in s'.cache && s'.cache[b].holders > 0
  {
    hide Inv, LogOk, Do, BufOf, Leads;
    InvDisk(lay, budget, base, s);
    s' := s.(cache := s.cache[b := BufOf(s, b).(holders := BufOf(s, b).holders + 1)]);
    CacheDo(lay, budget, s, Get(b));
    LeadsOne(lay, budget, base, s, Get(b), s');
  }

  lemma LoadLeads(lay: Layout, budget: nat, base: Disk, s: State, b: nat) returns (s': State)
    requires Inv(lay, budget, base, s) && s.phase.Up() && Home(lay, s.disk, b)
    requires b in s.cache && s.cache[b].holders > 0 && !s.cache[b].valid
    ensures Leads(lay, budget, base, s, [Load(b)], s', [])
    ensures s'.phase == s.phase && s'.tx == s.tx && s'.disk == s.disk && b in s'.cache && s'.cache[b].holders > 0 && s'.cache[b].valid
  {
    hide Inv, LogOk, Do, Leads;
    InvDisk(lay, budget, base, s);
    s' := s.(cache := s.cache[b := s.cache[b].(valid := true, data := s.disk[b])]);
    CacheDo(lay, budget, s, Load(b));
    LeadsOne(lay, budget, base, s, Load(b), s');
  }

  lemma LeadsInv(lay: Layout, budget: nat, base: Disk, s: State, steps: seq<Step>, s': State, ws: seq<Write>)
    requires Leads(lay, budget, base, s, steps, s', ws)
    ensures Inv(lay, budget, base, s')
  {
    hide Inv, Run, Updates;
  }

  /** block_read on a block of the file system. */
  lemma ReadLeads(lay: Layout, budget: nat, base: Disk, s: State, b: nat) returns (steps: seq<Step>, s': State)
    requires Inv(lay, budget, base, s) && s.phase.Up() && Home(lay, s.disk, b)
    ensures Leads(lay, budget, base, s, steps, s', [])
    ensures s'.phase == s.phase && s'.tx == s.tx && s'.disk == s.disk && b in s'.cache && s'.cache[b].holders > 0 && s'.cache[b].valid
  {
    hide Inv, Leads;
    s' := GetLeads(lay, budget, base, s, b);
    steps := [Get(b)];
    LeadsInv(lay, budget, base, s, steps, s', []);
    if !s'.cache[b].valid {
      var s1 := s';
      s' := LoadLeads(lay, budget, base, s1, b);
      var none: seq<Write> := [];
      assert none + none == none;
      LeadsOn(lay, budget, base, s, steps, s1, none, [Load(b)], s', none);
      steps := steps + [Load(b)];
    }
  }

  lemma UpdateLeads(lay: Layout, budget: nat, base: Disk, s: State, op: Op, b: nat, data: Block) returns (s': State)
    requires Inv(lay, budget, base, s) && s.phase.Running? && Home(lay, s.disk, b) && s.tx.ops == [op]
    requires |op.logged + {b}| <= budget && b in s.cache && s.cache[b].holders > 0 && s.cache[b].valid
    ensures Leads(lay, budget, base, s, [Update(0, b, data)], s', [Write(b, data)])
    ensures s'.phase.Running? && s'.disk == s.disk && s'.tx.ops == [Op(op.id, op.logged + {b})]
  {
    InvDisk(lay, budget, base, s);
    hide Inv, LogOk, LogWrite;
    s' := DoUpdate(lay, budget, s, 0, b, data).value;
    assert Do(lay, budget, s, Update(0, b, data)) == Some(s');
    hide Do, Leads;
    LeadsOne(lay, budget, base, s, Update(0, b, data), s');
  }

  lemma FewerBlocks(a: set<nat>, b: set<nat>, n: nat)
    requires a <= b && |b| <= n
    ensures |a| <= n
  {
    assert b == a + (b - a);
  }

  /** An open operation can make any writes its budget allows. */
  lemma {:induction false} WritesLead(lay: Layout, budget: nat, base: Disk, s: State, op: Op, ws: seq<Write>)
    returns (steps: seq<Step>, s': State)
    requires Inv(lay, budget, base, s) && s.phase.Running? && s.tx.ops == [op]
    requires AllHome(lay, s.disk, ws) && |op.logged + BlocksOf(ws)| <= budget
    ensures Leads(lay, budget, base, s, steps, s', ws) && s'.phase.Running? && |s'.tx.ops| == 1
    decreases |ws|
  {
    hide Inv, Leads, BlocksOf;
    if ws == [] {
      steps, s' := [], s;
      LeadsNowhere(lay, budget, base, s);
    } else {
      var w, rest := ws[0], ws[1..];
      BlocksNext(ws);
      FewerBlocks(op.logged + {w.block}, op.logged + BlocksOf(ws), budget);
      var a, s1 := ReadLeads(lay, budget, base, s, w.block);
      LeadsInv(lay, budget, base, s, a, s1, []);
      var s2 := UpdateLeads(lay, budget, base, s1, op, w.block, w.data);
      LeadsInv(lay, budget, base, s1, [Update(0, w.block, w.data)], s2, [w]);
      LeadsOn(lay, budget, base, s, a, s1, [], [Update(0, w.block, w.data)], s2, [w]);
      assert [] + [w] == [w] && [w] + rest == ws;
      assert op.logged + {w.block} + BlocksOf(rest) == op.logged + BlocksOf(ws);
      steps, s' := WritesLead(lay, budget, base, s2, Op(op.id, op.logged + {w.block}), rest);
      LeadsOn(lay, budget, base, s, a + [Update(0, w.block, w.data)], s2, [w], steps, s', rest);
      steps := a + [Update(0, w.block, w.data)] + steps;
    }
  }

  lemma BeginLeads(lay: Layout, budget: nat, base: Disk, s: State) returns (s': State)
    requires Inv(lay, budget, base, s) && Settled(s)
    ensures Leads(lay, budget, base, s, [Begin], s', [])
    ensures s'.phase.Running? && s'.disk == s.disk && s'.tx.ops == [Op(s.tx.nextId, {})]
  {
    InvDisk(lay, budget, base, s);
    assert Admits(s.tx.log) by { SettledAdmits(lay, budget, base, s); }
    hide Inv, LogOk, Admits;
    s' := s.(tx := DoTx(lay.size, budget, s.tx, TBegin).value);
    assert Do(lay, budget, s, Begin) == Some(s');
    hide Do, Leads;
    LeadsOne(lay, budget, base, s, Begin, s');
  }

  lemma SettledAdmits(lay: Layout, budget: nat, base: Disk, s: State)
    requires Inv(lay, budget, base, s) && Settled(s)
    ensures Admits(s.tx.log)
  {
    hide HeaderBlocks, HeaderCount, Effective, HistoryOk, CacheOk, LogOk, Loggable, SlotsHold, VisibleOk, DurableOk, Roomy;
  }

  lemma EndLeads(lay: Layout, budget: nat, base: Disk, s: State) returns (s': State)
    requires Inv(lay, budget, base, s) && s.phase.Running? && |s.tx.ops| == 1
    ensures Leads(lay, budget, base, s, [End(0)], s', []) && s'.tx.ops == []
  {
    InvDisk(lay, budget, base, s);
    hide Inv, LogOk;
    s' := Do(lay, budget, s, End(0)).value;
    assert s'.tx.ops == [];
    hide Do, Leads;
    LeadsOne(lay, budget, base, s, End(0), s');
  }

  /** Recovery or the commit under way, then one operation with all the writes, then its commit. */
  lemma OperationLeads(lay: Layout, budget: nat, base: Disk, s: State, ws: seq<Write>) returns (steps: seq<Step>, s': State)
    requires Inv(lay, budget, base, s) && s.tx.ops == [] && AllHome(lay, base, ws) && |BlocksOf(ws)| <= budget
    ensures Leads(lay, budget, base, s, steps, s', ws) && Settled(s')
  {
    hide Inv, Leads, BlocksOf, Home;
    var none: seq<Write> := [];
    assert none + none == none && none + ws == ws && ws + none == ws && {} + BlocksOf(ws) == BlocksOf(ws);
    var a, s1 := Finishes(lay, budget, base, s);
    LeadsInv(lay, budget, base, s, a, s1, none);
    var s2 := BeginLeads(lay, budget, base, s1);
    LeadsInv(lay, budget, base, s1, [Begin], s2, none);
    LeadsOn(lay, budget, base, s, a, s1, none, [Begin], s2, none);
    SameHome(lay, budget, base, s2, ws);
    var c, s3 := WritesLead(lay, budget, base, s2, Op(s1.tx.nextId, {}), ws);
    LeadsInv(lay, budget, base, s2, c, s3, ws);
    LeadsOn(lay, budget, base, s, a + [Begin], s2, none, c, s3, ws);
    var s4 := EndLeads(lay, budget, base, s3);
    LeadsInv(lay, budget, base, s3, [End(0)], s4, none);
    LeadsOn(lay, budget, base, s, a + [Begin] + c, s3, ws, [End(0)], s4, none);
    steps, s' := Finishes(lay, budget, base, s4);
    LeadsOn(lay, budget, base, s, a + [Begin] + c + [End(0)], s4, ws, steps, s', none);
    steps := a + [Begin] + c + [End(0)] + steps;
  }

  lemma SameHome(lay: Layout, budget: nat, base: Disk, s: State, ws: seq<Write>)
    requires Inv(lay, budget, base, s) && AllHome(lay, base, ws)
    ensures AllHome(lay, s.disk, ws)
  {
    InvDisk(lay, budget, base, s);
    hide Inv;
  }

  lemma {:induction false} ReachedOn(lay: Layout, budget: nat, d: Disk, before: seq<Step>, s: State, steps: seq<Step>, s': State)
    requires Reached(lay, budget, d, before, s) && Run(lay, budget, s, steps) == Some(s')
    ensures Reached(lay, budget, d, before + steps, s')
  {
    hide Run, LogOk;
    RunJoin(lay, budget, PowerOn(d), before, s, steps, s');
  }

  /** Whenever no operation is open, power just being on included, the system can go on to make any writes an
      operation's budget allows; it then is settled, every block shows the last of these writes to it, or what it
      showed before, and a crash changes none of it. */
  lemma TransactionCanBeMade(lay: Layout, budget: nat, d: Disk, before: seq<Step>, s: State, ws: seq<Write>, cuts: seq<nat>)
    returns (steps: seq<Step>, s': State)
    requires Reached(lay, budget, d, before, s) && s.tx.ops == []
    requires AllHome(lay, d, ws) && |BlocksOf(ws)| <= budget
    ensures Run(lay, budget, s, steps) == Some(s') && Crash !in steps && Updates(steps) == ws && Settled(s')
    ensures LogOk(lay, s.disk) && LogOk(lay, s'.disk) && |s.disk| == |s'.disk| == |d|
    ensures forall b: nat :: Home(lay, d, b) ==>
      Content(s', b) == Recover(lay, Attempts(lay, s'.disk, cuts))[b] == LastData(ws, b, Seen(lay, s, b))
  {
    var base := Mounted(lay, d);
    ReachedInv(lay, budget, d, before, s);
    steps, s' := OperationLeads(lay, budget, base, s, ws);
    hide Inv, Run, LogOk, Reached, Updates, LastData, Recover, Attempts, Content;
    ReachedOn(lay, budget, d, before, s, steps, s');
    SettledIsDurable(lay, budget, d, before + steps, s', cuts);
    ReachedInv(lay, budget, d, before, s);
    InvDisk(lay, budget, base, s);
    forall b: nat | Home(lay, d, b) ensures Content(s', b) == LastData(ws, b, Seen(lay, s, b)) {
      ReadsSeeLastUpdate(lay, budget, d, before, s, steps, s', b);
    }
  }
}
