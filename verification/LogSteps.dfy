/** Each disk write of commit and of recovery keeps the invariant; so does a crash anywhere. */
module LogSteps {
  import opened Wrappers
  import opened Params
  import opened Storage
  import opened Recovery
  import opened LogCore
  import opened LogMachine
  import opened LogInvariant

  // ---- writing one block through the cache --------------------------------

  /** Afterwards block `b` reads as `data`, cached and on disk; nothing else reads differently. */
  lemma WriteBlockReads(s: State, b: nat, data: Block)
    requires b < |s.disk|
    ensures var s' := WriteBlock(s, b, data);
      && s'.disk == s.disk[b := data] && s' == s.(disk := s'.disk, cache := s'.cache)
      && forall x: nat :: x < |s.disk| ==> Content(s', x) == if x == b then data else Content(s, x)
  {
  }

  lemma WriteBlockCache(s: State, b: nat, data: Block, lh: seq<nat>, phase: Phase)
    requires b < |s.disk| && CacheOk(s.disk, s.cache, lh, phase)
    ensures CacheOk(s.disk[b := data], WriteBlock(s, b, data).cache, lh, phase)
  {
    hide Pinned;
  }

  lemma Unpinned(disk: Disk, cache: map<nat, Buf>, lh: seq<nat>, phase: Phase, s: State, b: nat)
    requires CacheOk(disk, cache, lh, phase) && !Pinned(lh, phase, b) && b < |disk|
    requires s.disk == disk && s.cache == cache
    ensures Content(s, b) == disk[b]
  {
    hide Pinned;
  }

  lemma InLogUnpinned(lay: Layout, d: Disk, lh: seq<nat>, phase: Phase, b: nat)
    requires Loggable(lay, d, lh) && (lay.InLog(b) || b !in lh)
    ensures !Pinned(lh, phase, b)
  {
    IndexOfIn(lh, b);
  }

  // ---- commit: slots ------------------------------------------------------

  lemma VisibleStays(lay: Layout, base: Disk, s: State, s': State)
    requires VisibleOk(lay, base, s) && |s'.disk| == |s.disk|
    requires s'.groups == s.groups && s'.group == s.group
    requires forall b: nat :: Home(lay, s.disk, b) ==> Content(s', b) == Content(s, b)
    ensures VisibleOk(lay, base, s')
  {
    hide Read;
  }

  lemma SameEffectDurable(lay: Layout, base: Disk, d: Disk, d': Disk, groups: seq<seq<Event>>)
    requires LogOk(lay, d) && LogOk(lay, d') && |d| == |d'| && SameEffect(lay, d, d')
    requires DurableOk(lay, base, d, groups)
    ensures DurableOk(lay, base, d', groups)
  {
    hide Effective, LogOk, ApplyGroups;
  }

  lemma SlotStepSlots(lay: Layout, s: State, t: nat, data: Block, s': State)
    requires Fits(lay, s.disk) && Loggable(lay, s.disk, s.tx.log.lh) && t < |s.tx.log.lh|
    requires SlotsHold(lay, s, t) && data == Content(s, s.tx.log.lh[t])
    requires s'.disk == s.disk[lay.Slot(t) := data] && s'.tx == s.tx
    requires forall x: nat :: x < |s.disk| ==> Content(s', x) == if x == lay.Slot(t) then data else Content(s, x)
    ensures SlotsHold(lay, s', t + 1)
  {
    hide Read;
    assert Home(lay, s.disk, s.tx.log.lh[t]);
  }

  lemma CommitSlotShape(lay: Layout, s: State)
    requires LogOk(lay, s.disk) && Loggable(lay, s.disk, s.tx.log.lh)
    requires s.phase.CommitSlot? && s.phase.t < |s.tx.log.lh|
    ensures s.phase.t + 1 < lay.size && lay.Slot(s.phase.t) < |s.disk| && s.tx.log.lh[s.phase.t] < |s.disk|
    ensures DoAdvance(lay, s) == Some(
      WriteBlock(s, lay.Slot(s.phase.t), Content(s, s.tx.log.lh[s.phase.t])).(phase := CommitSlot(s.phase.t + 1)))
  {
    hide HeaderBlocks, HeaderCount, Read, WriteBlock;
    assert Home(lay, s.disk, s.tx.log.lh[s.phase.t]);
  }

  lemma CommitSlotKeeps(lay: Layout, budget: nat, base: Disk, s: State, s': State)
    requires Inv(lay, budget, base, s) && s.phase.CommitSlot? && s.phase.t < |s.tx.log.lh|
    requires DoAdvance(lay, s) == Some(s')
    ensures Inv(lay, budget, base, s')
  {
    hide DoAdvance, HeaderBlocks, HeaderCount, TxInv, HistoryOk, GroupLogged, CacheOk, Read, VisibleOk,
      DurableOk, SameEffect, WriteBlock, Pinned, SlotsHold, Distinct;
    CommitSlotShape(lay, s);
    var t, lh := s.phase.t, s.tx.log.lh;
    var data := Content(s, lh[t]);
    SlotWriteKeeps(lay, s.disk, t, data);
    WriteBlockReads(s, lay.Slot(t), data);
    WriteBlockCache(s, lay.Slot(t), data, lh, s.phase);
    SamePins(lh, s.phase, s'.phase);
    var w := WriteBlock(s, lay.Slot(t), data);
    assert s' == w.(phase := CommitSlot(t + 1));
    assert forall x: nat :: x < |s.disk| ==> Content(s', x) == Content(w, x);
    SlotStepSlots(lay, s, t, data, s');
    hide LogOk;
    SameEffectDurable(lay, base, s.disk, s'.disk, s.groups);
    RephaseCache(s'.disk, s'.cache, lh, s.phase, s'.phase);
    VisibleStays(lay, base, s, s');
  }

  lemma CommitSlotsDone(lay: Layout, budget: nat, base: Disk, s: State, s': State)
    requires Inv(lay, budget, base, s) && s.phase.CommitSlot? && s.phase.t >= |s.tx.log.lh|
    requires s' == s.(phase := CommitHead)
    ensures Inv(lay, budget, base, s')
  {
    hide HeaderBlocks, TxInv, HistoryOk, GroupLogged, CacheOk, Read, VisibleOk, DurableOk, Pinned, LogOk, Loggable;
    SamePins(s.tx.log.lh, s.phase, s'.phase);
    RephaseCache(s.disk, s.cache, s.tx.log.lh, s.phase, s'.phase);
    SameContent(lay, base, s, s');
  }

  // ---- commit: the header write -------------------------------------------

  lemma HeadShape(lay: Layout, s: State)
    requires LogOk(lay, s.disk) && Loggable(lay, s.disk, s.tx.log.lh) && s.phase.CommitHead?
    ensures |s.tx.log.lh| <= LOGSIZE && lay.start < |s.disk|
    ensures DoAdvance(lay, s) == Some(WriteBlock(s, lay.start, HeaderFor(s, lay, s.tx.log.lh))
      .(phase := Install(0), group := [], groups := s.groups + [s.group]))
    ensures HeaderCount(HeaderFor(s, lay, s.tx.log.lh)) == |s.tx.log.lh|
    ensures HeaderBlocks(HeaderFor(s, lay, s.tx.log.lh)) == s.tx.log.lh
  {
    var lh := s.tx.log.lh;
    forall i | 0 <= i < |lh| ensures lh[i] < UINT32 { assert Home(lay, s.disk, lh[i]); }
    HeaderRoundTrip(Content(s, lay.start), lh);
  }

  /** What the header write makes durable is what readers saw. */
  lemma HeadDurable(lay: Layout, base: Disk, s: State, d': Disk)
    requires LogOk(lay, s.disk) && Loggable(lay, s.disk, s.tx.log.lh) && LogOk(lay, d') && |d'| == |s.disk|
    requires CacheOk(s.disk, s.cache, s.tx.log.lh, CommitHead) && VisibleOk(lay, base, s)
    requires SlotsHold(lay, s, |s.tx.log.lh|)
    requires forall b: nat :: Home(lay, s.disk, b) ==> var i := IndexOf(s.tx.log.lh, b);
      Effective(lay, d', b) == if i < |s.tx.log.lh| then s.disk[lay.Slot(i)] else s.disk[b]
    ensures DurableOk(lay, base, d', s.groups + [s.group])
  {
    var lh := s.tx.log.lh;
    assert (s.groups + [s.group])[..|s.groups|] == s.groups;
    forall b: nat | Home(lay, s.disk, b)
      ensures Effective(lay, d', b) == ApplyGroups(base, s.groups + [s.group])[b]
    {
      var i := IndexOf(lh, b);
      if i < |lh| {
        assert s.disk[lay.Slot(i)] == Content(s, lh[i]);
      } else {
        Unpinned(s.disk, s.cache, lh, CommitHead, s, b);
      }
    }
  }

  lemma HeadHistory(ops: seq<Op>, nextId: nat, group: seq<Event>, groups: seq<seq<Event>>, history: seq<Event>)
    requires HistoryOk(ops, nextId, group, groups, history) && ops == []
    ensures HistoryOk(ops, nextId, [], groups + [group], history)
  {
    assert forall o: nat :: Whole(o, [], history);
    hide EventsOf, Whole;
  }

  lemma HeadVisible(lay: Layout, base: Disk, s: State, s': State)
    requires VisibleOk(lay, base, s) && |s'.disk| == |s.disk|
    requires s'.groups == s.groups + [s.group] && s'.group == []
    requires forall b: nat :: Home(lay, s.disk, b) ==> Content(s', b) == Content(s, b)
    ensures VisibleOk(lay, base, s')
  {
    hide Read;
    assert s'.groups[..|s.groups|] == s.groups;
    assert ApplyEvents(ApplyGroups(base, s'.groups), []) == ApplyGroups(base, s'.groups);
  }

  lemma SlotsStay(lay: Layout, s: State, s': State, b: nat)
    requires Fits(lay, s.disk) && Loggable(lay, s.disk, s.tx.log.lh) && SlotsHold(lay, s, |s.tx.log.lh|)
    requires |s'.disk| == |s.disk| && s'.tx == s.tx
    requires b == lay.start || Home(lay, s.disk, b)
    requires forall x: nat :: x < |s.disk| && x != b ==> s'.disk[x] == s.disk[x]
    requires forall x: nat :: Home(lay, s.disk, x) ==> Content(s', x) == Content(s, x)
    ensures SlotsHold(lay, s', |s.tx.log.lh|)
  {
    hide Read;
    forall j | 0 <= j < |s.tx.log.lh|
      ensures s'.disk[lay.Slot(j)] == Content(s', s.tx.log.lh[j])
    {
      assert Home(lay, s.disk, s.tx.log.lh[j]);
      assert lay.InLog(lay.Slot(j)) && lay.Slot(j) != b;
    }
  }

  lemma CommitHeadKeeps(lay: Layout, budget: nat, base: Disk, s: State, s': State)
    requires Inv(lay, budget, base, s) && s.phase.CommitHead? && DoAdvance(lay, s) == Some(s')
    ensures Inv(lay, budget, base, s')
  {
    hide DoAdvance, HeaderBlocks, HeaderCount, HistoryOk, CacheOk, Read, VisibleOk, HeaderFor,
      DurableOk, WriteBlock, Pinned, SlotsHold, Distinct, Slack, Effective;
    HeadShape(lay, s);
    var lh, h := s.tx.log.lh, HeaderFor(s, lay, s.tx.log.lh);
    assert s.tx.ops == [];
    hide TxInv;
    HeaderWriteCommits(lay, s.disk, h, lh);
    WriteBlockReads(s, lay.start, h);
    assert LogOk(lay, s'.disk) && Loggable(lay, s'.disk, lh);
    hide LogOk, Loggable;
    WriteBlockCache(s, lay.start, h, lh, s.phase);
    SamePins(lh, s.phase, s'.phase);
    RephaseCache(s'.disk, s'.cache, lh, s.phase, s'.phase);
    HeadDurable(lay, base, s, s'.disk);
    HeadHistory(s.tx.ops, s.tx.nextId, s.group, s.groups, s.history);
    HeadVisible(lay, base, s, s');
    SlotsStay(lay, s, s', lay.start);
  }

  // ---- commit: installing -------------------------------------------------

  lemma InstallShape(lay: Layout, s: State)
    requires LogOk(lay, s.disk) && Loggable(lay, s.disk, s.tx.log.lh)
    requires s.phase.Install? && s.phase.t < |s.tx.log.lh|
    ensures var t, b := s.phase.t, s.tx.log.lh[s.phase.t];
      && lay.Slot(t) < |s.disk| && Home(lay, s.disk, b) && lay.InLog(lay.Slot(t))
      && DoAdvance(lay, s) ==
           Some(Unpin(WriteBlock(s, b, Content(s, lay.Slot(t))), b).(phase := Install(t + 1)))
  {
    hide HeaderBlocks, HeaderCount, Read, WriteBlock, Unpin;
    assert Home(lay, s.disk, s.tx.log.lh[s.phase.t]);
  }

  lemma UnpinCache(s: State, b: nat, lh: seq<nat>, p: Phase, q: Phase)
    requires CacheOk(s.disk, s.cache, lh, p) && Pinned(lh, p, b) && b < |s.disk| && Content(s, b) == s.disk[b]
    requires forall x: nat :: Pinned(lh, q, x) == (Pinned(lh, p, x) && x != b)
    ensures var s' := Unpin(s, b);
      s' == s.(cache := s'.cache) && CacheOk(s.disk, s'.cache, lh, q)
      && forall x: nat :: x < |s.disk| ==> Content(s', x) == Content(s, x)
  {
    hide Pinned;
  }

  lemma InstallPins(lh: seq<nat>, t: nat)
    requires Distinct(lh) && t < |lh|
    ensures Pinned(lh, Install(t), lh[t])
    ensures forall x: nat :: Pinned(lh, Install(t + 1), x) == (Pinned(lh, Install(t), x) && x != lh[t])
  {
    IndexOfDistinct(lh, t);
  }

  lemma InstallKeeps(lay: Layout, budget: nat, base: Disk, s: State, s': State)
    requires Inv(lay, budget, base, s) && s.phase.Install? && s.phase.t < |s.tx.log.lh|
    requires DoAdvance(lay, s) == Some(s')
    ensures Inv(lay, budget, base, s')
  {
    hide DoAdvance, HeaderBlocks, HeaderCount, TxInv, HistoryOk, GroupLogged, CacheOk, Read, VisibleOk,
      DurableOk, SameEffect, WriteBlock, Unpin, Pinned, Effective;
    InstallShape(lay, s);
    var t, lh, b := s.phase.t, s.tx.log.lh, s.tx.log.lh[s.phase.t];
    var data := Content(s, lay.Slot(t));
    InLogUnpinned(lay, s.disk, lh, s.phase, lay.Slot(t));
    Unpinned(s.disk, s.cache, lh, s.phase, s, lay.Slot(t));
    assert data == s.disk[lay.Slot(t)] && data == Content(s, b);
    InstallWriteKeeps(lay, s.disk, t);
    InstallPins(lh, t);
    hide Installed, LogOk, Distinct;
    var w := WriteBlock(s, b, data);
    WriteBlockReads(s, b, data);
    WriteBlockCache(s, b, data, lh, s.phase);
    UnpinCache(w, b, lh, s.phase, s'.phase);
    var u := Unpin(w, b);
    assert s' == u.(phase := s'.phase);
    assert forall x: nat :: x < |s.disk| ==> Content(s', x) == Content(u, x);
    SameEffectDurable(lay, base, s.disk, s'.disk, s.groups);
    VisibleStays(lay, base, s, s');
    SlotsStay(lay, s, s', b);
  }

  lemma InstallDone(lay: Layout, budget: nat, base: Disk, s: State, s': State)
    requires Inv(lay, budget, base, s) && s.phase.Install? && s.phase.t >= |s.tx.log.lh|
    requires s' == s.(phase := ClearHead)
    ensures Inv(lay, budget, base, s')
  {
    hide HeaderBlocks, TxInv, HistoryOk, GroupLogged, CacheOk, Read, VisibleOk, DurableOk, Pinned, LogOk, Loggable;
    SamePins(s.tx.log.lh, s.phase, s'.phase);
    RephaseCache(s.disk, s.cache, s.tx.log.lh, s.phase, s'.phase);
    SameContent(lay, base, s, s');
  }

  // ---- emptying the header, after commit and after recovery ---------------

  lemma ClearedHeader(lay: Layout, s: State)
    requires LogOk(lay, s.disk)
    ensures HeaderCount(HeaderFor(s, lay, s.tx.log.lh[..0])) == 0
  {
    HeaderRoundTrip(Content(s, lay.start), s.tx.log.lh[..0]);
  }

  /** Nothing is pinned any more, whatever the list says. */
  lemma NothingPinned(disk: Disk, cache: map<nat, Buf>, lh: seq<nat>, p: Phase, q: Phase)
    requires CacheOk(disk, cache, lh, p) && !p.Unlogged() && !p.Install?
    ensures CacheOk(disk, cache, [], q)
  {
  }

  /** Writing an empty header over a fully installed log. */
  lemma ClearCommon(lay: Layout, base: Disk, s: State, h: Block)
    requires LogOk(lay, s.disk) && Installed(lay, s.disk, |HeaderBlocks(s.disk[lay.start])|) && HeaderCount(h) == 0
    requires CacheOk(s.disk, s.cache, s.tx.log.lh, s.phase) && !s.phase.Unlogged() && !s.phase.Install?
    requires DurableOk(lay, base, s.disk, s.groups)
    ensures var w := WriteBlock(s, lay.start, h);
      && w == s.(disk := w.disk, cache := w.cache) && |w.disk| == |s.disk|
      && LogOk(lay, w.disk) && HeaderBlocks(w.disk[lay.start]) == []
      && DurableOk(lay, base, w.disk, s.groups)
      && (forall q: Phase :: CacheOk(w.disk, w.cache, [], q))
      && (forall b: nat :: Home(lay, s.disk, b) ==> Content(w, b) == Content(s, b))
      && (forall b: nat :: Home(lay, s.disk, b) ==> w.disk[b] == Effective(lay, s.disk, b))
  {
    hide HeaderBlocks, HeaderCount, CacheOk, DurableOk, Read, WriteBlock, Effective, SameEffect;
    var w := WriteBlock(s, lay.start, h);
    ClearWriteKeeps(lay, s.disk, h);
    WriteBlockReads(s, lay.start, h);
    WriteBlockCache(s, lay.start, h, s.tx.log.lh, s.phase);
    forall q: Phase ensures CacheOk(w.disk, w.cache, [], q) {
      NothingPinned(w.disk, w.cache, s.tx.log.lh, s.phase, q);
    }
    hide LogOk, Installed;
    SameEffectDurable(lay, base, s.disk, w.disk, s.groups);
  }

  lemma EmptyLoggable(lay: Layout, d: Disk)
    requires lay.size >= 1
    ensures Loggable(lay, d, [])
  {
  }

  lemma ClearHeadKeeps(lay: Layout, budget: nat, base: Disk, s: State, s': State)
    requires Inv(lay, budget, base, s) && s.phase.ClearHead? && DoAdvance(lay, s) == Some(s')
    ensures Inv(lay, budget, base, s')
  {
    hide HeaderBlocks, HeaderCount, HistoryOk, GroupLogged, CacheOk, Read, VisibleOk, HeaderFor, Distinct,
      DurableOk, WriteBlock, Effective, Installed, Slack, Loggable;
    assert Fits(lay, s.disk);
    hide LogOk;
    assert s'.tx.ops == s.tx.ops && s'.tx.nextId == s.tx.nextId && s'.tx.log == s.tx.log.(lh := []);
    CommitKeeps(lay.size, budget, s.tx, TClear, s'.tx);
    var h := HeaderFor(s, lay, s.tx.log.lh[..0]);
    assert s' == WriteBlock(s, lay.start, h).(tx := s'.tx, phase := EndCommit);
    hide DoAdvance, DoTx, TxInv;
    ClearedHeader(lay, s);
    ClearCommon(lay, base, s, h);
    var w := WriteBlock(s, lay.start, h);
    assert forall b: nat :: b < |s.disk| ==> Content(s', b) == Content(w, b);
    EmptyLoggable(lay, s'.disk);
    VisibleStays(lay, base, s, s');
    NoSlots(lay, s');
    assert GroupLogged(s'.group, []) by { NoneLogged(s'.group); }
  }

  lemma NoneLogged(group: seq<Event>)
    requires group == []
    ensures forall lh :: GroupLogged(group, lh)
  {
  }

  lemma EndCommitKeeps(lay: Layout, budget: nat, base: Disk, s: State, s': State)
    requires Inv(lay, budget, base, s) && s.phase.EndCommit? && DoAdvance(lay, s) == Some(s')
    ensures Inv(lay, budget, base, s')
  {
    hide HeaderBlocks, HeaderCount, HistoryOk, GroupLogged, CacheOk, Read, VisibleOk, Distinct,
      DurableOk, Slack, LogOk, Loggable;
    CommitKeeps(lay.size, budget, s.tx, TDone, s'.tx);
    NothingPinned(s.disk, s.cache, s.tx.log.lh, s.phase, Running);
    SameContent(lay, base, s, s');
    NoSlots(lay, s');
  }

  // ---- recovery and crash -------------------------------------------------

  lemma BootKeeps(lay: Layout, budget: nat, base: Disk, s: State, s': State)
    requires Inv(lay, budget, base, s) && s.phase.Boot? && DoAdvance(lay, s) == Some(s')
    ensures Inv(lay, budget, base, s')
  {
    hide HeaderBlocks, HeaderCount, HistoryOk, Effective, DurableOk, Distinct;
    NoneLogged(s'.group);
    hide GroupLogged;
    NoSlots(lay, s');
  }

  lemma RecInstallKeeps(lay: Layout, budget: nat, base: Disk, s: State, s': State)
    requires Inv(lay, budget, base, s) && s.phase.RecInstall? && s.phase.t < |s.tx.log.lh|
    requires DoAdvance(lay, s) == Some(s')
    ensures Inv(lay, budget, base, s')
  {
    hide HeaderBlocks, HeaderCount, HistoryOk, GroupLogged, CacheOk, Read, DurableOk, SameEffect, WriteBlock,
      Pinned, Effective, Distinct, SlotsHold;
    var t, lh, b := s.phase.t, s.tx.log.lh, s.tx.log.lh[s.phase.t];
    assert Home(lay, s.disk, b);
    var data := Content(s, lay.Slot(t));
    assert s' == WriteBlock(s, b, data).(phase := RecInstall(t + 1));
    hide DoAdvance;
    InLogUnpinned(lay, s.disk, lh, s.phase, lay.Slot(t));
    Unpinned(s.disk, s.cache, lh, s.phase, s, lay.Slot(t));
    InstallWriteKeeps(lay, s.disk, t);
    hide Installed, LogOk;
    WriteBlockReads(s, b, data);
    WriteBlockCache(s, b, data, lh, s.phase);
    SamePins(lh, s.phase, s'.phase);
    RephaseCache(s'.disk, s'.cache, lh, s.phase, s'.phase);
    SameEffectDurable(lay, base, s.disk, s'.disk, s.groups);
    NoSlots(lay, s');
  }

  lemma RecInstallDone(lay: Layout, budget: nat, base: Disk, s: State, s': State)
    requires Inv(lay, budget, base, s) && s.phase.RecInstall? && s.phase.t >= |s.tx.log.lh|
    requires s' == s.(phase := RecClear)
    ensures Inv(lay, budget, base, s')
  {
    hide HeaderBlocks, TxInv, HistoryOk, GroupLogged, CacheOk, Read, DurableOk, Pinned, LogOk, Loggable;
    SamePins(s.tx.log.lh, s.phase, s'.phase);
    RephaseCache(s.disk, s.cache, s.tx.log.lh, s.phase, s'.phase);
  }

  lemma RecClearVisible(lay: Layout, base: Disk, s: State, d: Disk)
    requires LogOk(lay, d) && DurableOk(lay, base, d, s.groups) && |s.disk| == |d| && s.group == []
    requires forall b: nat :: Home(lay, d, b) ==> s.disk[b] == Effective(lay, d, b)
    requires CacheOk(s.disk, s.cache, [], Running)
    ensures VisibleOk(lay, base, s)
  {
    hide Read, Effective, LogOk, CacheOk;
    forall b: nat | Home(lay, d, b) ensures Content(s, b) == s.disk[b] {
      Unpinned(s.disk, s.cache, [], Running, s, b);
    }
  }

  lemma RecClearKeeps(lay: Layout, budget: nat, base: Disk, s: State, s': State)
    requires Inv(lay, budget, base, s) && s.phase.RecClear? && DoAdvance(lay, s) == Some(s')
    ensures Inv(lay, budget, base, s')
  {
    hide HeaderBlocks, HeaderCount, HistoryOk, GroupLogged, CacheOk, Read, VisibleOk, HeaderFor,
      DurableOk, WriteBlock, Effective, Installed, Loggable;
    assert Fits(lay, s.disk);
    hide LogOk;
    assert s'.tx == Tx(EMPTY_LOG, [], s.tx.nextId) && TxInv(budget, s'.tx);
    hide Distinct;
    var h := HeaderFor(s, lay, s.tx.log.lh[..0]);
    assert s' == WriteBlock(s, lay.start, h).(tx := s'.tx, phase := Running);
    hide DoAdvance, TxInv;
    ClearedHeader(lay, s);
    ClearCommon(lay, base, s, h);
    EmptyLoggable(lay, s'.disk);
    RecClearVisible(lay, base, s', s.disk);
    NoSlots(lay, s');
    NoneLogged(s'.group);
  }

  lemma CrashHistory(ops: seq<Op>, nextId: nat, group: seq<Event>, groups: seq<seq<Event>>, history: seq<Event>)
    requires HistoryOk(ops, nextId, group, groups, history)
    ensures HistoryOk([], nextId, [], groups, history)
  {
    assert forall o: nat :: Whole(o, [], history);
    hide EventsOf, Whole;
  }

  lemma CrashKeeps(lay: Layout, budget: nat, base: Disk, s: State)
    requires Inv(lay, budget, base, s)
    ensures Inv(lay, budget, base, DoCrash(s))
  {
    hide HeaderBlocks, HeaderCount, HistoryOk, GroupLogged, Loggable, DurableOk, TxInv, VisibleOk, SlotsHold, Installed;
    CrashHistory(s.tx.ops, s.tx.nextId, s.group, s.groups, s.history);
    assert Fits(lay, s.disk);
    hide LogOk;
    EmptyLoggable(lay, s.disk);
    NoneLogged([]);
    NoSlots(lay, DoCrash(s));
  }

  // ---- all steps ----------------------------------------------------------

  lemma AdvanceKeeps(lay: Layout, budget: nat, base: Disk, s: State, s': State)
    requires Inv(lay, budget, base, s) && DoAdvance(lay, s) == Some(s')
    ensures Inv(lay, budget, base, s')
  {
    hide Inv;
    match s.phase {
      case Running =>
      case CommitSlot(t) =>
        if t < |s.tx.log.lh| { CommitSlotKeeps(lay, budget, base, s, s'); } else { CommitSlotsDone(lay, budget, base, s, s'); }
      case CommitHead => CommitHeadKeeps(lay, budget, base, s, s');
      case Install(t) =>
        if t < |s.tx.log.lh| { InstallKeeps(lay, budget, base, s, s'); } else { InstallDone(lay, budget, base, s, s'); }
      case ClearHead => ClearHeadKeeps(lay, budget, base, s, s');
      case EndCommit => EndCommitKeeps(lay, budget, base, s, s');
      case Boot => BootKeeps(lay, budget, base, s, s');
      case RecInstall(t) =>
        if t < |s.tx.log.lh| { RecInstallKeeps(lay, budget, base, s, s'); } else { RecInstallDone(lay, budget, base, s, s'); }
      case RecClear => RecClearKeeps(lay, budget, base, s, s');
    }
  }

  lemma StepKeeps(lay: Layout, budget: nat, base: Disk, s: State, step: Step, s': State)
    requires Inv(lay, budget, base, s) && Do(lay, budget, s, step) == Some(s')
    ensures Inv(lay, budget, base, s')
  {
    hide Inv, DoAdvance, DoUpdate, DoCache;
    match step {
      case Begin => BeginStepKeeps(lay, budget, base, s, s');
      case Update(i, b, data) => UpdateStepKeeps(lay, budget, base, s, i, b, data, s');
      case End(i) => EndStepKeeps(lay, budget, base, s, i, s');
      case Get(_) => CacheStepKeeps(lay, budget, base, s, step, s');
      case Load(_) => CacheStepKeeps(lay, budget, base, s, step, s');
      case Put(_) => CacheStepKeeps(lay, budget, base, s, step, s');
      case Evict(_) => CacheStepKeeps(lay, budget, base, s, step, s');
      case Advance => AdvanceKeeps(lay, budget, base, s, s');
      case Crash => CrashKeeps(lay, budget, base, s);
    }
  }
}
