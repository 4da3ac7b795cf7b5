/** What every step of LogMachine keeps. */
module LogInvariant {
  import opened Wrappers
  import opened Params
  import opened Storage
  import opened Recovery
  import opened LogCore
  import opened LogMachine

  // ---- the specification: operations' writes applied in order -------------

  function ApplyEvents(d: Disk, es: seq<Event>): (r: Disk)
    ensures |r| == |d|
  {
    if es == [] then d
    else
      var n := |es| - 1;
      var p := ApplyEvents(d, es[..n]);
      if es[n].block < |d| then p[es[n].block := es[n].data] else p
  }

  /** What the disk held when it was first mounted: committed log contents included. */
  function Mounted(lay: Layout, d: Disk): (r: Disk)
    requires LogOk(lay, d)
    ensures |r| == |d| && forall b: nat :: b < |d| ==> r[b] == Effective(lay, d, b)
  {
    seq(|d|, b requires 0 <= b < |d| => Effective(lay, d, b))
  }

  function ApplyGroups(d: Disk, groups: seq<seq<Event>>): (r: Disk)
    ensures |r| == |d|
  {
    if groups == [] then d else ApplyEvents(ApplyGroups(d, groups[..|groups| - 1]), groups[|groups| - 1])
  }

  function EventsOf(op: nat, es: seq<Event>): seq<Event> {
    if es == [] then []
    else
      var n := |es| - 1;
      EventsOf(op, es[..n]) + if es[n].op == op then [es[n]] else []
  }

  // ---- the invariant ------------------------------------------------------

  /** Blocks of the open group that still carry their pin. */
  predicate Pinned(lh: seq<nat>, phase: Phase, b: nat) {
    var i := IndexOf(lh, b);
    i < |lh| && (phase.Unlogged() || (phase.Install? && phase.t <= i))
  }

  /** Exactly the logged, not yet installed blocks hold one pin; every other loaded buffer equals the disk. */
  ghost predicate CacheOk(disk: Disk, cache: map<nat, Buf>, lh: seq<nat>, phase: Phase) {
    && (forall b :: b in cache ==>
         && b < |disk|
         && cache[b].pins == (if Pinned(lh, phase, b) then 1 else 0)
         && (if Pinned(lh, phase, b) then cache[b].valid
             else cache[b].valid ==> cache[b].data == disk[b]))
    && forall b: nat :: Pinned(lh, phase, b) ==> b in cache
  }

  /** The first `n` slots on disk hold the visible content of the blocks they stand for. */
  ghost predicate SlotsHold(lay: Layout, s: State, n: nat) {
    n <= |s.tx.log.lh| && forall j :: 0 <= j < n ==>
      lay.Slot(j) < |s.disk| && s.tx.log.lh[j] < |s.disk| && s.disk[lay.Slot(j)] == Content(s, s.tx.log.lh[j])
  }

  function SlotsDone(phase: Phase, lh: seq<nat>): nat {
    match phase
    case CommitSlot(t) => t
    case CommitHead => |lh|
    case Install(_) => |lh|
    case _ => 0
  }

  /** The header on disk and the in-memory log agree with the phase. */
  ghost predicate PhaseOk(lay: Layout, phase: Phase, disk: Disk, tx: Tx, group: seq<Event>)
    requires LogOk(lay, disk)
  {
    var lh, hdr, committing := tx.log.lh, HeaderBlocks(disk[lay.start]), tx.log.committing;
    match phase
    case Running => hdr == [] && !committing
    case CommitSlot(t) => hdr == [] && committing && lh != []
    case CommitHead => hdr == [] && committing && lh != []
    case Install(t) => hdr == lh && committing && Installed(lay, disk, t) && group == []
    case ClearHead => hdr == lh && committing && Installed(lay, disk, |lh|) && group == []
    case EndCommit => hdr == [] && lh == [] && committing && group == []
    case Boot => group == [] && tx.log == EMPTY_LOG && tx.ops == []
    case RecInstall(t) =>
      hdr == lh && Installed(lay, disk, t) && group == [] && tx.log == EMPTY_LOG.(lh := lh) && tx.ops == []
    case RecClear =>
      hdr == lh && Installed(lay, disk, |lh|) && group == [] && tx.log == EMPTY_LOG.(lh := lh) && tx.ops == []
  }

  /** Durable: recovery would yield the committed groups. */
  ghost predicate DurableOk(lay: Layout, base: Disk, disk: Disk, groups: seq<seq<Event>>)
    requires LogOk(lay, disk)
  {
    |base| == |disk| &&
    forall b: nat :: Home(lay, disk, b) ==> Effective(lay, disk, b) == ApplyGroups(base, groups)[b]
  }

  /** Visible: block_read returns the last write of any operation. */
  ghost predicate VisibleOk(lay: Layout, base: Disk, s: State) {
    |base| == |s.disk| &&
    forall b: nat :: Home(lay, s.disk, b) ==>
      Content(s, b) == ApplyEvents(ApplyGroups(base, s.groups), s.group)[b]
  }

  /** `es` holds all of the operation's events or none. */
  predicate Whole(op: nat, es: seq<Event>, history: seq<Event>) {
    EventsOf(op, es) == [] || EventsOf(op, es) == EventsOf(op, history)
  }

  /** Operations are never split between groups. */
  ghost predicate HistoryOk(ops: seq<Op>, nextId: nat, group: seq<Event>, groups: seq<seq<Event>>,
                            history: seq<Event>) {
    && (forall i :: 0 <= i < |history| ==> history[i].op < nextId)
    && (forall i :: 0 <= i < |ops| ==> ops[i].id < nextId)
    && (forall o: nat :: Whole(o, group, history))
    && (forall i :: 0 <= i < |ops| ==> EventsOf(ops[i].id, group) == EventsOf(ops[i].id, history))
    && (forall k, o: nat :: 0 <= k < |groups| ==> Whole(o, groups[k], history))
    && (forall k, i :: 0 <= k < |groups| && 0 <= i < |ops| ==> EventsOf(ops[i].id, groups[k]) == [])
    && (forall k, o: nat :: 0 <= k < |groups| ==> EventsOf(o, groups[k]) == [] || EventsOf(o, group) == [])
    && (forall j, k, o: nat :: 0 <= j < k < |groups| ==> EventsOf(o, groups[j]) == [] || EventsOf(o, groups[k]) == [])
  }

  ghost predicate GroupLogged(group: seq<Event>, lh: seq<nat>) {
    forall i :: 0 <= i < |group| ==> group[i].block in lh
  }

  ghost predicate Inv(lay: Layout, budget: nat, base: Disk, s: State) {
    && LogOk(lay, s.disk)
    && Roomy(lay.size, budget)
    && (s.phase.Up() ==> TxInv(budget, s.tx))
    && Loggable(lay, s.disk, s.tx.log.lh)
    && GroupLogged(s.group, s.tx.log.lh)
    && CacheOk(s.disk, s.cache, s.tx.log.lh, s.phase)
    && (s.phase.Boot? ==> s.cache == map[])
    && PhaseOk(lay, s.phase, s.disk, s.tx, s.group)
    && SlotsHold(lay, s, SlotsDone(s.phase, s.tx.log.lh))
    && DurableOk(lay, base, s.disk, s.groups)
    && (s.phase.Up() ==> VisibleOk(lay, base, s))
    && HistoryOk(s.tx.ops, s.tx.nextId, s.group, s.groups, s.history)
  }

  // ---- preservation, step by step -----------------------------------------

  /** The disk and the log are the same and every block reads the same. */
  ghost predicate SameView(s: State, s': State) {
    s' == s.(cache := s'.cache) && forall b: nat :: b < |s.disk| ==> Content(s', b) == Content(s, b)
  }

  lemma SameViewKeeps(lay: Layout, budget: nat, base: Disk, s: State, s': State)
    requires Inv(lay, budget, base, s) && SameView(s, s') && CacheOk(s'.disk, s'.cache, s'.tx.log.lh, s'.phase) && s.phase.Up()
    ensures Inv(lay, budget, base, s')
  {
    hide HeaderBlocks, HeaderCount, Effective, Read, HistoryOk, GroupLogged, TxInv, LogOk, Loggable, DurableOk,
      PhaseOk, CacheOk, Roomy;
  }

  lemma CacheStepView(lay: Layout, s: State, step: Step, s': State)
    requires step.Get? || step.Load? || step.Put? || step.Evict?
    requires CacheOk(s.disk, s.cache, s.tx.log.lh, s.phase) && DoCache(lay, s, step) == Some(s')
    ensures SameView(s, s') && CacheOk(s'.disk, s'.cache, s'.tx.log.lh, s'.phase) && s.phase.Up()
  {
    hide Pinned;
  }

  lemma CacheStepKeeps(lay: Layout, budget: nat, base: Disk, s: State, step: Step, s': State)
    requires step.Get? || step.Load? || step.Put? || step.Evict?
    requires Inv(lay, budget, base, s) && DoCache(lay, s, step) == Some(s')
    ensures Inv(lay, budget, base, s')
  {
    assert SameView(s, s') && CacheOk(s'.disk, s'.cache, s'.tx.log.lh, s'.phase) && s.phase.Up() by { CacheStepView(lay, s, step, s'); }
    hide *;
    SameViewKeeps(lay, budget, base, s, s');
  }

  lemma {:induction false} NoEvents(o: nat, es: seq<Event>)
    requires forall i :: 0 <= i < |es| ==> es[i].op != o
    ensures EventsOf(o, es) == []
  {
    if es != [] {
      NoEvents(o, es[..|es| - 1]);
    }
  }

  lemma WholeNothing(o: nat, es: seq<Event>, history: seq<Event>)
    requires Whole(o, es, history) && EventsOf(o, history) == []
    ensures EventsOf(o, es) == []
  {
  }

  lemma BeginHistory(ops: seq<Op>, nextId: nat, group: seq<Event>, groups: seq<seq<Event>>, history: seq<Event>)
    requires HistoryOk(ops, nextId, group, groups, history)
    ensures HistoryOk(ops + [Op(nextId, {})], nextId + 1, group, groups, history)
  {
    NoEvents(nextId, history);
    hide EventsOf;
    WholeNothing(nextId, group, history);
    forall k | 0 <= k < |groups| ensures EventsOf(nextId, groups[k]) == [] {
      WholeNothing(nextId, groups[k], history);
    }
  }

  lemma OpenMeansRunning(lay: Layout, phase: Phase, disk: Disk, tx: Tx, group: seq<Event>, tx': Tx, group': seq<Event>)
    requires LogOk(lay, disk) && PhaseOk(lay, phase, disk, tx, group) && phase.Up()
    requires !tx.log.committing && !tx'.log.committing
    ensures phase == Running && PhaseOk(lay, Running, disk, tx', group')
  {
  }

  lemma BeginStepKeeps(lay: Layout, budget: nat, base: Disk, s: State, s': State)
    requires Inv(lay, budget, base, s) && Do(lay, budget, s, Begin) == Some(s')
    ensures Inv(lay, budget, base, s')
  {
    OpenMeansRunning(lay, s.phase, s.disk, s.tx, s.group, s'.tx, s.group);
    BeginKeeps(lay.size, budget, s.tx, s'.tx);
    BeginHistory(s.tx.ops, s.tx.nextId, s.group, s.groups, s.history);
    hide PhaseOk, HeaderBlocks, Effective, HistoryOk, GroupLogged, TxInv, LogOk, Loggable, DurableOk, CacheOk, Roomy,
      VisibleOk, DoAdvance, DoUpdate, DoCache, DoCrash;
  }

  // ---- update -------------------------------------------------------------

  lemma IndexOfIn(s: seq<nat>, b: nat)
    ensures IndexOf(s, b) < |s| <==> b in s
  {
  }

  lemma {:induction false} IndexOfAppend(s: seq<nat>, b: nat, x: nat)
    ensures x in s ==> IndexOf(s + [b], x) == IndexOf(s, x)
    ensures b !in s ==> IndexOf(s + [b], b) == |s|
  {
    if s != [] {
      IndexOfAppend(s[1..], b, x);
      assert (s + [b])[1..] == s[1..] + [b];
    }
  }

  lemma UpdateHistory(ops: seq<Op>, ops': seq<Op>, nextId: nat, group: seq<Event>, groups: seq<seq<Event>>,
                      history: seq<Event>, i: nat, e: Event)
    requires HistoryOk(ops, nextId, group, groups, history)
    requires i < |ops| && e.op == ops[i].id
    requires |ops'| == |ops| && forall j :: 0 <= j < |ops| ==> ops'[j].id == ops[j].id
    ensures HistoryOk(ops', nextId, group + [e], groups, history + [e])
  {
    assert (group + [e])[..|group|] == group && (history + [e])[..|history|] == history;
    forall o: nat
      ensures EventsOf(o, group + [e]) == EventsOf(o, group) + if o == e.op then [e] else []
      ensures EventsOf(o, history + [e]) == EventsOf(o, history) + if o == e.op then [e] else []
    {
    }
    hide EventsOf;
    assert forall o: nat :: Whole(o, group + [e], history + [e]) by {
      forall o: nat ensures Whole(o, group + [e], history + [e]) {
        assert Whole(o, group, history);
      }
    }
    forall k, o: nat | 0 <= k < |groups| ensures Whole(o, groups[k], history + [e]) {
      assert Whole(o, groups[k], history);
    }
  }

  lemma UpdateCache(disk: Disk, cache: map<nat, Buf>, lh: seq<nat>, b: nat, data: Block, lh': seq<nat>, buf: Buf)
    requires CacheOk(disk, cache, lh, Running) && b in cache && cache[b].valid
    requires lh' == if b in lh then lh else lh + [b]
    requires buf == cache[b].(data := data, pins := cache[b].pins + if |lh'| > |lh| then 1 else 0)
    ensures CacheOk(disk, cache[b := buf], lh', Running)
  {
    forall x: nat ensures Pinned(lh', Running, x) == (x == b || Pinned(lh, Running, x)) {
      IndexOfIn(lh, x);
      IndexOfIn(lh', x);
    }
    IndexOfIn(lh, b);
  }

  lemma UpdateVisible(lay: Layout, base: Disk, s: State, b: nat, e: Event, s': State)
    requires VisibleOk(lay, base, s) && b in s.cache && s.cache[b].valid && b < |s.disk|
    requires s'.disk == s.disk && s'.groups == s.groups && s'.group == s.group + [e] && e.block == b
    requires b in s'.cache && s'.cache == s.cache[b := s'.cache[b]] && s'.cache[b].valid && s'.cache[b].data == e.data
    ensures VisibleOk(lay, base, s')
  {
    assert s'.group[..|s.group|] == s.group;
  }

  lemma UpdateStepKeeps(lay: Layout, budget: nat, base: Disk, s: State, i: nat, b: nat, data: Block, s': State)
    requires Inv(lay, budget, base, s) && s.phase.Up() && DoUpdate(lay, budget, s, i, b, data) == Some(s')
    ensures Inv(lay, budget, base, s')
  {
    hide PhaseOk, HeaderBlocks, Effective, HistoryOk, GroupLogged, LogOk, Loggable, DurableOk, Roomy, CacheOk,
      VisibleOk, Read, LogWrite, Slack, SlotsHold;
    var e := Event(s.tx.ops[i].id, b, data);
    var lh, lh' := s.tx.log.lh, s'.tx.log.lh;
    assert TxInv(budget, s'.tx) && lh' == (if b in lh then lh else lh + [b]) by {
      WriteKeeps(lay.size, budget, s.tx, i, b, s'.tx);
    }
    assert !s.tx.log.committing && !s'.tx.log.committing;
    assert |s'.tx.ops| == |s.tx.ops| && s'.tx.nextId == s.tx.nextId
      && forall j :: 0 <= j < |s.tx.ops| ==> s'.tx.ops[j].id == s.tx.ops[j].id;
    hide TxInv, DoTx;
    OpenMeansRunning(lay, s.phase, s.disk, s.tx, s.group, s'.tx, s'.group);
    UpdateHistory(s.tx.ops, s'.tx.ops, s.tx.nextId, s.group, s.groups, s.history, i, e);
    UpdateCache(s.disk, s.cache, lh, b, data, lh', s'.cache[b]);
    UpdateLogged(lay, budget, s, b, s'.tx, e);
    UpdateVisible(lay, base, s, b, e, s');
    NoSlots(lay, s');
  }

  lemma NoSlots(lay: Layout, s: State)
    ensures SlotsHold(lay, s, 0)
  {
  }

  lemma UpdateLogged(lay: Layout, budget: nat, s: State, b: nat, tx': Tx, e: Event)
    requires Loggable(lay, s.disk, s.tx.log.lh) && GroupLogged(s.group, s.tx.log.lh)
    requires Home(lay, s.disk, b) && e.block == b && Roomy(lay.size, budget) && TxInv(budget, tx')
    requires tx'.log.lh == if b in s.tx.log.lh then s.tx.log.lh else s.tx.log.lh + [b]
    ensures Loggable(lay, s.disk, tx'.log.lh) && GroupLogged(s.group + [e], tx'.log.lh)
  {
    SlackBounds(budget, tx'.ops);
  }

  // ---- end of an operation ------------------------------------------------

  lemma EndHistory(ops: seq<Op>, nextId: nat, group: seq<Event>, groups: seq<seq<Event>>, history: seq<Event>, i: nat)
    requires HistoryOk(ops, nextId, group, groups, history) && i < |ops|
    ensures HistoryOk(Without(ops, i), nextId, group, groups, history)
  {
    hide EventsOf, Whole;
  }

  lemma EndPhase(lay: Layout, s: State, tx': Tx, phase': Phase)
    requires LogOk(lay, s.disk) && PhaseOk(lay, Running, s.disk, s.tx, s.group) && GroupLogged(s.group, s.tx.log.lh)
    requires tx'.log.lh == s.tx.log.lh
    requires phase' == if !tx'.log.committing then Running else if tx'.log.lh == [] then EndCommit else CommitSlot(0)
    ensures PhaseOk(lay, phase', s.disk, tx', s.group)
    ensures phase'.Up() && SlotsDone(phase', tx'.log.lh) == 0
    ensures forall b: nat :: Pinned(tx'.log.lh, phase', b) == Pinned(s.tx.log.lh, Running, b)
  {
    hide HeaderBlocks;
    if s.group != [] {
      assert s.group[0].block in s.tx.log.lh;
    }
    SamePins(s.tx.log.lh, Running, phase');
  }

  lemma EndStepKeeps(lay: Layout, budget: nat, base: Disk, s: State, i: nat, s': State)
    requires Inv(lay, budget, base, s) && Do(lay, budget, s, End(i)) == Some(s')
    ensures Inv(lay, budget, base, s')
  {
    hide PhaseOk, HeaderBlocks, Effective, HistoryOk, GroupLogged, LogOk, Loggable, DurableOk, Roomy, CacheOk,
      VisibleOk, Read, Slack, SlotsHold, Pinned, DoAdvance, DoCache, DoCrash, DoUpdate, SlotsDone;
    assert !s.tx.log.committing && s'.tx.log.lh == s.tx.log.lh && s'.tx.ops == Without(s.tx.ops, i);
    EndKeeps(lay.size, budget, s.tx, i, s'.tx);
    hide TxInv, DoTx;
    OpenMeansRunning(lay, s.phase, s.disk, s.tx, s.group, s.tx, s.group);
    EndPhase(lay, s, s'.tx, s'.phase);
    EndHistory(s.tx.ops, s.tx.nextId, s.group, s.groups, s.history, i);
    RephaseCache(s.disk, s.cache, s.tx.log.lh, s.phase, s'.phase);
    NoSlots(lay, s');
    SameContent(lay, base, s, s');
  }

  lemma RephaseCache(disk: Disk, cache: map<nat, Buf>, lh: seq<nat>, p: Phase, q: Phase)
    requires CacheOk(disk, cache, lh, p) && forall b: nat :: Pinned(lh, q, b) == Pinned(lh, p, b)
    ensures CacheOk(disk, cache, lh, q)
  {
    hide Pinned;
  }

  lemma SameContent(lay: Layout, base: Disk, s: State, s': State)
    requires VisibleOk(lay, base, s) && s'.disk == s.disk && s'.cache == s.cache
    requires s'.groups == s.groups && s'.group == s.group
    ensures VisibleOk(lay, base, s')
  {
  }

  /** Moving between phases in which everything, or nothing, is pinned. */
  lemma SamePins(lh: seq<nat>, p: Phase, q: Phase)
    requires lh == [] || (p.Unlogged() && q.Unlogged()) || (p.Unlogged() && q == Install(0))
      || (p == Install(|lh|) && !q.Unlogged() && !q.Install?)
      || (!p.Unlogged() && !p.Install? && !q.Unlogged() && !q.Install?)
    ensures forall b: nat :: Pinned(lh, p, b) == Pinned(lh, q, b)
  {
  }
}
