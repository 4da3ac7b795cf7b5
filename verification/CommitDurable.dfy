/** What a completed commit leaves behind, in cache and on disk, and crash atomicity of commit over the real cache. */
module CommitDurable {
  import opened Params
  import opened Storage
  import opened Recovery
  import opened LogCore
  import opened CacheModel
  import opened CacheMap
  import opened CommitModel
  import opened CommitFacts
  import opened CommitTheorems

  // ---- the disk is what the writes made of it -----------------------------

  /** `s` comes from `st` by the newer writes alone: its disk is that of `st` with them performed in order. */
  ghost predicate Journaled(st: Store, s: Store) {
    && |st.writes| <= |s.writes| && st.writes == s.writes[..|st.writes|]
    && InRange(st.disk, s.writes[|st.writes|..])
    && s.disk == Perform(st.disk, s.writes[|st.writes|..])
  }

  lemma SameDisk(st: Store, s: Store)
    requires s.disk == st.disk && s.writes == st.writes
    ensures Journaled(st, s)
  {
    assert s.writes[|st.writes|..] == [];
  }

  lemma Chained(a: Store, b: Store, c: Store)
    requires Journaled(a, b) && Journaled(b, c)
    ensures Journaled(a, c) && |c.disk| == |a.disk|
  {
    var x, y := b.writes[|a.writes|..], c.writes[|b.writes|..];
    PerformSplit(a.disk, x, y);
    assert c.writes == c.writes[..|b.writes|] + y;
    assert c.writes[|a.writes|..] == x + y;
    assert a.writes == c.writes[..|a.writes|];
  }

  lemma OneWrite(st: Store, env: Env, id: nat)
    ensures Journaled(st, BlockWrite(st, env, id))
  {
    hide Pos;
    var s := BlockWrite(st, env, id);
    if s.writes != st.writes {
      var w := s.writes[|s.writes| - 1];
      assert s.writes[|st.writes|..] == [w] && w.block < |st.disk|;
      assert [w][..1] == [w] && [w][..0] == [];
      PerformNext(st.disk, [w], 0);
    } else {
      SameDisk(st, s);
    }
  }

  /** block_write and block_release act only for the process that holds the buffer's sleep lock. */
  lemma OnlyTheHolder(st: Store, env: Env, id: nat)
    ensures var i := Pos(st.es, id);
      (i < |st.es| && st.es[i].owner == env.pid != 0) || (BlockWrite(st, env, id) == st && BlockRelease(st, env, id) == st)
  {
    hide Pos;
  }

  lemma QuietCalls(st: Store, env: Env, id: nat, data: Block)
    ensures FillBuf(st, id, data).disk == st.disk && FillBuf(st, id, data).writes == st.writes
    ensures BufUnpin(st, id).disk == st.disk && BufUnpin(st, id).writes == st.writes
    ensures BlockRelease(st, env, id).disk == st.disk && BlockRelease(st, env, id).writes == st.writes
  {
    hide Pos, Release, Unpin;
  }

  lemma QuietRead(st: Store, env: Env, b: nat)
    requires b < |st.disk|
    ensures var r := BlockRead(st, env, b); !r.Null? ==> r.st.disk == st.disk && r.st.writes == st.writes
  {
    hide Pos, Get;
  }

  /** The three calls around a block write: fill the buffer, write it, and give it back. */
  lemma FilledWrite(st: Store, env: Env, id: nat, data: Block, s: Store)
    requires s.disk == BlockWrite(FillBuf(st, id, data), env, id).disk
    requires s.writes == BlockWrite(FillBuf(st, id, data), env, id).writes
    ensures Journaled(st, s)
  {
    hide BlockWrite, FillBuf, Journaled;
    QuietCalls(st, env, id, data);
    var f := FillBuf(st, id, data);
    OneWrite(f, env, id);
    SameDisk(st, f);
    Chained(st, f, BlockWrite(f, env, id));
    SameDisk(BlockWrite(f, env, id), s);
    Chained(st, BlockWrite(f, env, id), s);
  }

  lemma TailJournaled(st: Store, env: Env, src: nat, tgt: nat, unpin: bool)
    ensures Journaled(st, CopyTail(st, env, src, tgt, unpin))
  {
    hide BlockWrite, FillBuf, Journaled, BufUnpin, BlockRelease, DataOf;
    var data := DataOf(st, src);
    var w := BlockWrite(FillBuf(st, tgt, data), env, tgt);
    var u := if unpin then BufUnpin(w, tgt) else w;
    QuietCalls(w, env, tgt, data);
    QuietCalls(u, env, src, data);
    QuietCalls(BlockRelease(u, env, src), env, tgt, data);
    FilledWrite(st, env, tgt, data, CopyTail(st, env, src, tgt, unpin));
  }

  lemma CopyJournaled(st: Store, env: Env, first: nat, second: nat, toFirst: bool, unpin: bool)
    requires first < |st.disk| && second < |st.disk|
    ensures Journaled(st, CopyBlock(st, env, first, second, toFirst, unpin).st)
  {
    hide BlockRead, CopyTail, Journaled;
    QuietRead(st, env, first);
    QuietRead(st, env, second);
    var f := CopyBlock(st, env, first, second, toFirst, unpin);
    var r := BlockRead(st, env, first);
    if r.Loaded? && BlockRead(r.st, env, second).Loaded? {
      QuietRead(r.st, env, second);
      var r2 := BlockRead(r.st, env, second);
      SameDisk(st, r2.st);
      TailJournaled(r2.st, env, r2.id, r.id, unpin);
      TailJournaled(r2.st, env, r.id, r2.id, unpin);
      Chained(st, r2.st, f.st);
    } else {
      if r.Loaded? { QuietRead(r.st, env, second); }
      SameDisk(st, f.st);
    }
  }

  lemma HeadJournaled(st: Store, env: Env, blocks: seq<nat>)
    requires env.lay.start < |st.disk| && |blocks| <= LOGSIZE
    ensures Journaled(st, WriteHead(st, env, blocks).st)
  {
    hide BlockRead, BlockWrite, FillBuf, BlockRelease, DataOf, WithHeader, Journaled;
    QuietRead(st, env, env.lay.start);
    var r := BlockRead(st, env, env.lay.start);
    var s := WriteHead(st, env, blocks).st;
    if r.Loaded? {
      var data := WithHeader(DataOf(r.st, r.id), blocks);
      QuietCalls(BlockWrite(FillBuf(r.st, r.id, data), env, r.id), env, r.id, data);
      FilledWrite(r.st, env, r.id, data, s);
      SameDisk(st, r.st);
      Chained(st, r.st, s);
    } else {
      SameDisk(st, s);
    }
  }

  lemma {:induction false} WriteLogJournaled(st: Store, env: Env, lh: seq<nat>, t: nat)
    requires Addressable(st.disk, env.lay, lh) && t <= |lh|
    ensures Journaled(st, WriteLog(st, env, lh, t).st)
    decreases |lh| - t
  {
    hide CopyBlock, Journaled, WriteLog;
    if t == |lh| {
      LoopsEnd(st, env, lh);
      SameDisk(st, st);
    } else {
      WriteLogTurn(st, env, lh, t);
      CopyJournaled(st, env, env.lay.Slot(t), lh[t], true, false);
      var f := CopyBlock(st, env, env.lay.Slot(t), lh[t], true, false);
      if f.Next? {
        WriteLogJournaled(f.st, env, lh, t + 1);
        Chained(st, f.st, WriteLog(f.st, env, lh, t + 1).st);
      }
    }
  }

  lemma {:induction false} InstallJournaled(st: Store, env: Env, lh: seq<nat>, t: nat, recovering: bool)
    requires Addressable(st.disk, env.lay, lh) && t <= |lh|
    ensures Journaled(st, InstallTrans(st, env, lh, t, recovering).st)
    decreases |lh| - t
  {
    hide CopyBlock, Journaled, InstallTrans;
    if t == |lh| {
      LoopsEnd(st, env, lh);
      SameDisk(st, st);
    } else {
      InstallTurn(st, env, lh, t, recovering);
      CopyJournaled(st, env, env.lay.Slot(t), lh[t], false, !recovering);
      var f := CopyBlock(st, env, env.lay.Slot(t), lh[t], false, !recovering);
      if f.Next? {
        InstallJournaled(f.st, env, lh, t + 1, recovering);
        Chained(st, f.st, InstallTrans(f.st, env, lh, t + 1, recovering).st);
      }
    }
  }

  /** Whatever the cache does to it, completed or stuck, commit changes the disk by its list of writes alone. */
  lemma CommitJournaled(st: Store, env: Env, lh: seq<nat>)
    requires Addressable(st.disk, env.lay, lh)
    ensures Journaled(st, Commit(st, env, lh).st)
  {
    hide WriteLog, WriteHead, InstallTrans, Journaled, Commit;
    if lh == [] {
      EmptyCommit(st, env);
      SameDisk(st, st);
    } else {
      CommitTurn(st, env, lh);
      WriteLogJournaled(st, env, lh, 0);
      var f1 := WriteLog(st, env, lh, 0);
      if f1.Next? {
        HeadJournaled(f1.st, env, lh);
        var f2 := WriteHead(f1.st, env, lh);
        Chained(st, f1.st, f2.st);
        if f2.Next? {
          InstallJournaled(f2.st, env, lh, 0, false);
          var f3 := InstallTrans(f2.st, env, lh, 0, false);
          Chained(st, f2.st, f3.st);
          if f3.Next? {
            HeadJournaled(f3.st, env, lh[..0]);
            Chained(st, f3.st, WriteHead(f3.st, env, lh[..0]).st);
          }
        }
      }
    }
  }

  // ---- the store a completed commit leaves --------------------------------

  /** What commit leaves: each logged block has lost its one pin, every reader of a home block sees what it saw
      before, and every slot written, and the header, occupy a buffer for good. */
  ghost predicate Settled(st: Store, env: Env, lh: seq<nat>, s: Store) {
    && |s.es| == |st.es| && |s.disk| == |st.disk|
    && Quiet(s, env)
    && Busy(s.es) == Busy(st.es) + SlotSet(env.lay, 0, |lh|) + {env.lay.start}
    && (forall x: nat :: x < |st.disk| && !env.lay.InLog(x) ==> Cont(s, env, x) == Cont(st, env, x))
    && (forall x: nat :: x in Busy(st.es) && !env.lay.InLog(x) ==>
          Refs(s, env, x) == Refs(st, env, x) - if x in lh then 1 else 0)
  }

  lemma ReadersKeep(st: Store, env: Env, lh: seq<nat>, s1: Store, s2: Store, s3: Store, s4: Store, x: nat)
    requires Addressable(st.disk, env.lay, lh) && (forall i :: 0 <= i < |lh| ==> lh[i] < |st.disk|)
    requires SlotsFilled(st, env, Datas(st, env, lh), 0, s1) && Ends(st, env, lh, Datas(st, env, lh), s1, s2, s3, s4)
    requires x < |st.disk| && !env.lay.InLog(x)
    ensures Cont(s4, env, x) == Cont(st, env, x)
  {
    hide StoreOk, Busy, Cont, Refs, WithHeader;
    assert lh[0..] == lh;
    if x in lh {
      var i :| 0 <= i < |lh| && lh[i] == x;
      assert Cont(s3, env, lh[i]) == Datas(st, env, lh)[i];
    }
  }

  lemma PinsReturn(st: Store, env: Env, lh: seq<nat>, datas: seq<Block>, s1: Store, s2: Store, s3: Store, s4: Store, x: nat)
    requires Addressable(st.disk, env.lay, lh) && |datas| == |lh|
    requires SlotsFilled(st, env, datas, 0, s1) && Ends(st, env, lh, datas, s1, s2, s3, s4)
    requires x in Busy(st.es) && !env.lay.InLog(x)
    ensures Refs(s4, env, x) == Refs(st, env, x) - if x in lh then 1 else 0
  {
    hide StoreOk, Busy, Cont, Refs, WithHeader;
    assert lh[0..] == lh;
    assert x in Busy(s1.es) && x in Busy(s2.es) && x in Busy(s3.es);
  }

  lemma BusyAfter(st: Store, env: Env, lh: seq<nat>, datas: seq<Block>, s1: Store, s2: Store, s3: Store, s4: Store)
    requires Addressable(st.disk, env.lay, lh) && |datas| == |lh|
    requires SlotsFilled(st, env, datas, 0, s1) && Ends(st, env, lh, datas, s1, s2, s3, s4)
    ensures Busy(s4.es) == Busy(st.es) + SlotSet(env.lay, 0, |lh|) + {env.lay.start} && |s4.es| == |st.es|
    ensures |s4.disk| == |st.disk| && StoreOk(s4, env, {})
    ensures var h := WithHeader(WithHeader(st.disk[env.lay.start], lh), lh[..0]);
      s4.disk[env.lay.start] == h == Cont(s4, env, env.lay.start)
  {
    hide StoreOk, Busy, Cont, Refs, WithHeader;
  }

  lemma EndsSettled(st: Store, env: Env, lh: seq<nat>, s1: Store, s2: Store, s3: Store, s4: Store)
    requires Addressable(st.disk, env.lay, lh) && (forall i :: 0 <= i < |lh| ==> lh[i] < |st.disk|)
    requires SlotsFilled(st, env, Datas(st, env, lh), 0, s1) && Ends(st, env, lh, Datas(st, env, lh), s1, s2, s3, s4)
    ensures Settled(st, env, lh, s4)
  {
    hide StoreOk, Busy, Cont, Refs, WithHeader, SlotsFilled, Ends, Datas, HeaderBlocks, LogOk;
    BusyAfter(st, env, lh, Datas(st, env, lh), s1, s2, s3, s4);
    ClearedHeader(env.lay, st.disk, WithHeader(st.disk[env.lay.start], lh), lh, s4.disk);
    forall x: nat | x < |st.disk| && !env.lay.InLog(x) ensures Cont(s4, env, x) == Cont(st, env, x) {
      ReadersKeep(st, env, lh, s1, s2, s3, s4, x);
    }
    forall x: nat | x in Busy(st.es) && !env.lay.InLog(x)
      ensures Refs(s4, env, x) == Refs(st, env, x) - if x in lh then 1 else 0
    {
      PinsReturn(st, env, lh, Datas(st, env, lh), s1, s2, s3, s4, x);
    }
  }

  /** A commit with room drops every pin, keeps what readers see, and leaves the store as it must be for the
      next group. */
  lemma CommitSettles(st: Store, env: Env, lh: seq<nat>)
    requires Ready(st, env, lh) && Room(st, env, lh)
    ensures Addressable(st.disk, env.lay, lh)
    ensures Commit(st, env, lh).Next? && Settled(st, env, lh, Commit(st, env, lh).st)
  {
    hide SlotAt, Busy, StoreOk, Cont, Refs, LoopReady, Commit, PinsFrom, WriteLog, WriteHead, InstallTrans, Ready,
      Datas, SlotsFilled, Room, Ends, Settled, Committable;
    ReadyFacts(st, env, lh);
    FirstHalf(st, env, lh);
    var s1 := WriteLog(st, env, lh, 0).st;
    SecondHalf(st, env, lh, Datas(st, env, lh), s1);
    CommitShape(st, env, lh);
    var s2 := WriteHead(s1, env, lh).st;
    var s3 := InstallTrans(s2, env, lh, 0, false).st;
    EndsSettled(st, env, lh, s1, s2, s3, WriteHead(s3, env, lh[..0]).st);
  }

  // ---- crash atomicity over the real cache --------------------------------

  /** Block `b` as the running system sees it once the group is in: the cached content of a logged block. */
  function Updated(st: Store, env: Env, lh: seq<nat>, b: nat): Block
    requires b < |st.disk|
  {
    if b in lh then Cont(st, env, b) else st.disk[b]
  }

  lemma AfterIsUpdated(st: Store, env: Env, lh: seq<nat>, b: nat)
    requires b < |st.disk| && forall i :: 0 <= i < |lh| ==> lh[i] < |st.disk|
    ensures After(st.disk, lh, Datas(st, env, lh), b) == Updated(st, env, lh, b)
  {
    hide Cont;
    if b in lh {
      assert lh[IndexOf(lh, b)] == b;
    }
  }

  /** With room for the group, commit over the real cache is atomic: stop it after any of its block writes and
      recover, through any number of crashes during recovery, and the home blocks are all as they were, or
      all as the running system last saw them. */
  lemma CommitIsCrashAtomic(st: Store, env: Env, lh: seq<nat>, k: nat, cuts: seq<nat>)
    requires Ready(st, env, lh) && Room(st, env, lh)
    ensures Addressable(st.disk, env.lay, lh) && Journaled(st, Commit(st, env, lh).st)
    ensures var ws := Commit(st, env, lh).st.writes[|st.writes|..];
      && |ws| == 2 * |lh| + 2
      && (k <= |ws| ==>
            && InRange(st.disk, ws[..k]) && LogOk(env.lay, Perform(st.disk, ws[..k]))
            && var r := Recover(env.lay, Attempts(env.lay, Perform(st.disk, ws[..k]), cuts));
               && |r| == |st.disk|
               && forall b: nat :: Home(env.lay, st.disk, b) ==>
                    r[b] == if k <= |lh| then st.disk[b] else Updated(st, env, lh, b))
  {
    hide Ready, Room, Commit, StoreOk, Busy, Cont, Refs, Updated, Committable, CommitWrites, Recover, LogOk, Datas,
      WithHeader, HeaderBlocks, After, Journaled;
    RoomyCommitCompletes(st, env, lh);
    CommitJournaled(st, env, lh);
    var datas := Datas(st, env, lh);
    var ws := Commit(st, env, lh).st.writes[|st.writes|..];
    assert ws == CommitWrites(env.lay, st.disk, lh, datas);
    if k <= |ws| {
      CrashAtomicity(env.lay, st.disk, lh, datas, k, cuts);
      forall b: nat | Home(env.lay, st.disk, b) ensures After(st.disk, lh, datas, b) == Updated(st, env, lh, b) {
        AfterIsUpdated(st, env, lh, b);
      }
    }
  }

  // ---- recovery over the real cache ---------------------------------------

  lemma ReplayJournaled(st: Store, env: Env, lh: seq<nat>)
    requires Addressable(st.disk, env.lay, lh)
    ensures Journaled(st, RecoverFromLog(st, env, lh).st)
  {
    hide InstallTrans, WriteHead, Journaled;
    InstallJournaled(st, env, lh, 0, true);
    InstallCounts(st, env, lh, 0, true);
    var f := InstallTrans(st, env, lh, 0, true);
    if f.Next? {
      HeadJournaled(f.st, env, lh[..0]);
      Chained(st, f.st, WriteHead(f.st, env, lh[..0]).st);
    }
  }

  /** Replaying the log of any disk through a cache with nothing in use makes it Recovery.Recover of that disk,
      and leaves the store quiet: the first group can be committed. */
  lemma RecoveryRestores(st: Store, env: Env)
    requires StoreOk(st, env, {}) && LogOk(env.lay, st.disk) && Busy(st.es) == {}
    requires |HeaderBlocks(st.disk[env.lay.start])| < |st.es|
    ensures var lh := HeaderBlocks(st.disk[env.lay.start]);
      && Addressable(st.disk, env.lay, lh)
      && var f := RecoverFromLog(st, env, lh);
         f.Next? && f.st.disk == Recover(env.lay, st.disk) && Quiet(f.st, env)
  {
    hide StoreOk, HeaderBlocks, HeaderCount, Busy, RecoverWrites, RecoverFromLog, Quiet, LogOk;
    RecoveryCompletes(st, env);
    var lh := HeaderBlocks(st.disk[env.lay.start]);
    ReplayJournaled(st, env, lh);
    assert RecoverFromLog(st, env, lh).st.writes[|st.writes|..] == RecoverWrites(env.lay, st.disk);
  }

  /** Reading a block through a cache with nothing in use gives what the disk has and leaves nothing in use. */
  lemma ReadBack(st: Store, env: Env, b: nat)
    requires StoreOk(st, env, {}) && Busy(st.es) == {} && b < |st.disk| && 1 <= |st.es|
    ensures var r := BlockRead(st, env, b);
      && r.Loaded? && DataOf(r.st, r.id) == st.disk[b]
      && var s := BlockRelease(r.st, env, r.id);
         && StoreOk(s, env, {}) && Busy(s.es) == {} && |s.es| == |st.es|
         && s.disk == st.disk && s.writes == st.writes
  {
    hide SlotAt, Busy, StoreOk, BlockRead, BlockRelease, DataOf, Cont, Refs, ListOk;
    assert Busy(st.es) + {b} == {b};
    ReadOutcome(st, env, {}, b);
    var r := BlockRead(st, env, b);
    ReadInOk(st, env, {}, b, r.st, r.id);
    CleanReadsDisk(st, env, {}, b);
    var e := Slot(r.st, env, b).value;
    assert {} + {b} == {b} && {b} - {b} == {};
    HeldData(r.st, env, {b}, b, e);
    ReleaseOk(r.st, env, {b}, b, e);
    assert Refs(st, env, b) == e.refcnt - 1;
    assert Eligible(Given(e));
  }
}
