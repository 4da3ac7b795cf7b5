/** commit over the real cache: when its writes are the crash-atomic sequence, and what happens when not. */
module CommitTheorems {
  import opened Params
  import opened Storage
  import opened Recovery
  import opened LogCore
  import opened CacheModel
  import opened CacheMap
  import opened CommitModel
  import opened CommitFacts

  /** No commit under way: nothing locked, the header on disk empty and its cached copy the same. */
  ghost predicate Quiet(st: Store, env: Env) {
    && StoreOk(st, env, {}) && LogOk(env.lay, st.disk) && HeaderBlocks(st.disk[env.lay.start]) == []
    && Cont(st, env, env.lay.start) == st.disk[env.lay.start]
  }

  /** The state log_end_op hands to commit: a quiet store and a group whose blocks are all pinned. */
  ghost predicate Ready(st: Store, env: Env, lh: seq<nat>) {
    && Quiet(st, env) && Loggable(env.lay, st.disk, lh) && lh != []
    && forall i :: 0 <= i < |lh| ==> lh[i] in Busy(st.es) && Refs(st, env, lh[i]) >= 1
  }

  /** The visible contents of the logged blocks. */
  function Datas(st: Store, env: Env, lh: seq<nat>): (s: seq<Block>)
    requires forall i :: 0 <= i < |lh| ==> lh[i] < |st.disk|
    ensures |s| == |lh|
  {
    seq(|lh|, i requires 0 <= i < |lh| => Cont(st, env, lh[i]))
  }

  /** Slots `t` up to `n`. */
  function SlotSet(lay: Layout, t: nat, n: nat): (s: set<nat>)
    ensures forall x: nat :: x in s <==> lay.Slot(t) <= x < lay.Slot(n)
    ensures |s| == if t <= n then n - t else 0
    decreases n - t
  {
    if t >= n then {} else {lay.Slot(t)} + SlotSet(lay, t + 1, n)
  }

  /** Everything the commit keeps in the cache at once fits: the blocks that cannot be recycled, a buffer
      per slot (B_DIRTY is never cleared), and the header. */
  ghost predicate Room(st: Store, env: Env, lh: seq<nat>) {
    |Busy(st.es) + SlotSet(env.lay, 0, |lh|) + {env.lay.start}| <= |st.es|
  }

  lemma SlotsSplit(x: set<nat>, y: set<nat>, lay: Layout, t: nat, n: nat)
    requires t < n && y == x + {lay.Slot(t)}
    ensures y + SlotSet(lay, t + 1, n) == x + SlotSet(lay, t, n)
  {
  }

  lemma SubsetFits(s: set<nat>, t: set<nat>, n: nat)
    requires s <= t && |t| <= n
    ensures |s| <= n
  {
    assert t == s + (t - s);
  }

  // ---- write_log ----------------------------------------------------------

  /** What write_log needs at iteration `t`, whatever earlier iterations did. */
  ghost predicate LoopReady(st: Store, env: Env, lh: seq<nat>) {
    && StoreOk(st, env, {}) && Fits(env.lay, st.disk) && Loggable(env.lay, st.disk, lh)
    && (forall i :: 0 <= i < |lh| ==> lh[i] in Busy(st.es))
  }

  lemma SlotIteration(st: Store, env: Env, lh: seq<nat>, t: nat)
    requires LoopReady(st, env, lh) && t < |lh| && |Busy(st.es) + {env.lay.Slot(t)}| <= |st.es|
    ensures Addressable(st.disk, env.lay, lh) && lh[t] < |st.disk| && env.lay.Slot(t) < |st.disk|
    ensures var f := CopyBlock(st, env, env.lay.Slot(t), lh[t], true, false);
      && f.Next? && Wrote(st, env, env.lay.Slot(t), Cont(st, env, lh[t]), false, f.st)
      && LoopReady(f.st, env, lh)
      && forall i :: 0 <= i < |lh| ==>
           lh[i] < |st.disk| && Cont(f.st, env, lh[i]) == Cont(st, env, lh[i]) && Refs(f.st, env, lh[i]) == Refs(st, env, lh[i])
  {
    hide SlotAt, Busy, StoreOk, CopyBlock, Cont, Refs;
    assert Home(env.lay, st.disk, lh[t]);
    assert Busy(st.es) + {env.lay.Slot(t)} + {lh[t]} == Busy(st.es) + {env.lay.Slot(t)};
    CopyOk(st, env, env.lay.Slot(t), lh[t], true, false);
    forall i | 0 <= i < |lh| ensures Home(env.lay, st.disk, lh[i]) && lh[i] != env.lay.Slot(t) {
    }
  }

  /** `s` has the blocks `datas[t..]` in slots `t`, `t + 1`, ..., on disk and in the cache. */
  ghost predicate SlotsFilled(st: Store, env: Env, datas: seq<Block>, t: nat, s: Store)
    requires t <= |datas|
  {
    && |s.disk| == |st.disk| && |s.es| == |st.es|
    && s.writes == st.writes + SlotWrites(env.lay, datas)[t..]
    && Busy(s.es) == Busy(st.es) + SlotSet(env.lay, t, |datas|)
    && (forall x: nat :: x in Busy(st.es) && !(env.lay.Slot(t) <= x < env.lay.Slot(|datas|)) ==>
          Refs(s, env, x) == Refs(st, env, x))
    && forall x: nat :: x < |st.disk| ==>
         Cont(s, env, x) == (if env.lay.Slot(t) <= x < env.lay.Slot(|datas|) then datas[x - env.lay.Slot(0)] else Cont(st, env, x))
  }

  lemma SlotWritesNext(lay: Layout, datas: seq<Block>, t: nat)
    requires t < |datas|
    ensures SlotWrites(lay, datas)[t..] == [Write(lay.Slot(t), datas[t])] + SlotWrites(lay, datas)[t + 1..]
  {
  }

  lemma SlotSetNext(lay: Layout, t: nat, n: nat)
    requires t < n
    ensures SlotSet(lay, t, n) == {lay.Slot(t)} + SlotSet(lay, t + 1, n)
  {
  }

  lemma FillsNext(st: Store, env: Env, datas: seq<Block>, t: nat, f: Store, s: Store)
    requires t < |datas| && env.lay.Slot(t) < |st.disk|
    requires Wrote(st, env, env.lay.Slot(t), datas[t], false, f) && SlotsFilled(f, env, datas, t + 1, s)
    ensures SlotsFilled(st, env, datas, t, s)
  {
    hide StoreOk, Busy, Cont, Refs, SlotSet, SlotWrites;
    var n, b := |datas|, env.lay.Slot(t);
    SlotSetNext(env.lay, t, n);
    SlotWritesNext(env.lay, datas, t);
    assert Busy(s.es) == Busy(st.es) + SlotSet(env.lay, t, n);
    assert s.writes == st.writes + SlotWrites(env.lay, datas)[t..];
    forall x: nat | x < |st.disk|
      ensures Cont(s, env, x) == (if b <= x < env.lay.Slot(n) then datas[x - env.lay.Slot(0)] else Cont(st, env, x))
    {
      assert Cont(f, env, x) == if x == b then datas[t] else Cont(st, env, x);
    }
  }

  lemma FillsNothing(st: Store, env: Env, datas: seq<Block>)
    ensures SlotsFilled(st, env, datas, |datas|, st)
  {
    hide Cont, Busy, Refs;
    assert SlotWrites(env.lay, datas)[|datas|..] == [];
    assert SlotSet(env.lay, |datas|, |datas|) == {};
  }

  lemma AllAddressable(st: Store, env: Env, lh: seq<nat>)
    requires LoopReady(st, env, lh)
    ensures Addressable(st.disk, env.lay, lh)
    ensures forall i :: 0 <= i < |lh| ==> Home(env.lay, st.disk, lh[i])
  {
    hide StoreOk, Busy;
  }

  lemma {:induction false} WriteLogFills(st: Store, env: Env, lh: seq<nat>, t: nat, datas: seq<Block>)
    requires LoopReady(st, env, lh) && t <= |lh| == |datas|
    requires forall i :: 0 <= i < |lh| ==> lh[i] < |st.disk| && datas[i] == Cont(st, env, lh[i])
    requires |Busy(st.es) + SlotSet(env.lay, t, |lh|)| <= |st.es|
    ensures Addressable(st.disk, env.lay, lh)
    ensures var f := WriteLog(st, env, lh, t);
      && f.Next? && SlotsFilled(st, env, datas, t, f.st) && LoopReady(f.st, env, lh)
      && forall i :: 0 <= i < |lh| ==> Refs(f.st, env, lh[i]) == Refs(st, env, lh[i])
    decreases |lh| - t
  {
    hide SlotAt, Busy, StoreOk, CopyBlock, Cont, Refs, SlotsFilled, Wrote, SlotSet, LoopReady, Addressable;
    AllAddressable(st, env, lh);
    if t == |lh| {
      FillsNothing(st, env, datas);
      LoopsEnd(st, env, lh);
    } else {
      var b := env.lay.Slot(t);
      SlotSetNext(env.lay, t, |lh|);
      WriteLogTurn(st, env, lh, t);
      SubsetFits(Busy(st.es) + {b}, Busy(st.es) + SlotSet(env.lay, t, |lh|), |st.es|);
      SlotIteration(st, env, lh, t);
      var f := CopyBlock(st, env, b, lh[t], true, false);
      WroteBasics(st, env, b, datas[t], false, f.st);
      assert Busy(f.st.es) + SlotSet(env.lay, t + 1, |lh|) == Busy(st.es) + SlotSet(env.lay, t, |lh|);
      WriteLogFills(f.st, env, lh, t + 1, datas);
      FillsNext(st, env, datas, t, f.st, WriteLog(f.st, env, lh, t + 1).st);
    }
  }

  lemma WroteBasics(st: Store, env: Env, b: nat, data: Block, unpin: bool, s: Store)
    requires b < |st.disk| && Wrote(st, env, b, data, unpin, s)
    ensures |s.disk| == |st.disk| && |s.es| == |st.es| && Busy(s.es) == Busy(st.es) + {b}
    ensures s.disk == st.disk[b := data] && s.writes == st.writes + [Write(b, data)]
  {
  }

  // ---- install_trans ------------------------------------------------------

  /** Every slot's buffer is busy and reads as the logged content. */
  ghost predicate SlotsReady(st: Store, env: Env, n: nat, datas: seq<Block>) {
    n == |datas| && forall i :: 0 <= i < n ==>
      && env.lay.Slot(i) < |st.disk| && env.lay.Slot(i) in Busy(st.es) && Cont(st, env, env.lay.Slot(i)) == datas[i]
  }

  /** Logged blocks from `t` on still hold their pin. */
  ghost predicate PinsFrom(st: Store, env: Env, lh: seq<nat>, t: nat) {
    forall i :: t <= i < |lh| ==> Refs(st, env, lh[i]) >= 1
  }

  ghost predicate InstallReady(st: Store, env: Env, lh: seq<nat>, t: nat, datas: seq<Block>) {
    LoopReady(st, env, lh) && SlotsReady(st, env, |lh|, datas) && PinsFrom(st, env, lh, t)
  }

  lemma LoopStays(st: Store, env: Env, lh: seq<nat>, b: nat, data: Block, unpin: bool, s: Store)
    requires LoopReady(st, env, lh) && b < |st.disk| && Wrote(st, env, b, data, unpin, s)
    ensures LoopReady(s, env, lh)
  {
    hide SlotAt, Busy, StoreOk, Cont, Refs;
  }

  lemma SlotsStay(st: Store, env: Env, n: nat, datas: seq<Block>, b: nat, data: Block, unpin: bool, s: Store)
    requires SlotsReady(st, env, n, datas) && b < |st.disk| && Wrote(st, env, b, data, unpin, s)
    requires !env.lay.InLog(b) && n < env.lay.size
    ensures SlotsReady(s, env, n, datas)
  {
    hide SlotAt, Busy, StoreOk, Cont, Refs;
  }

  lemma PinsStay(st: Store, env: Env, lh: seq<nat>, t: nat, data: Block, s: Store)
    requires LoopReady(st, env, lh) && PinsFrom(st, env, lh, t) && t < |lh|
    requires lh[t] < |st.disk| && Wrote(st, env, lh[t], data, true, s)
    ensures PinsFrom(s, env, lh, t + 1)
  {
    hide SlotAt, Busy, StoreOk, Cont, Refs;
    assert forall i :: t < i < |lh| ==> lh[i] != lh[t];
  }

  lemma InstallIteration(st: Store, env: Env, lh: seq<nat>, t: nat, datas: seq<Block>)
    requires InstallReady(st, env, lh, t, datas) && t < |lh|
    ensures lh[t] < |st.disk| && env.lay.Slot(t) < |st.disk|
    ensures var f := CopyBlock(st, env, env.lay.Slot(t), lh[t], false, true);
      f.Next? && Wrote(st, env, lh[t], datas[t], true, f.st) && InstallReady(f.st, env, lh, t + 1, datas)
  {
    AllAddressable(st, env, lh);
    hide SlotAt, Busy, StoreOk, CopyBlock, Cont, Refs, Wrote;
    var a, b := env.lay.Slot(t), lh[t];
    assert Home(env.lay, st.disk, b);
    assert a in Busy(st.es) && b in Busy(st.es) && Busy(st.es) + {a} + {b} == Busy(st.es);
    CopyOk(st, env, a, b, false, true);
    var s := CopyBlock(st, env, a, b, false, true).st;
    assert Wrote(st, env, b, datas[t], true, s);
    LoopStays(st, env, lh, b, datas[t], true, s);
    PinsStay(st, env, lh, t, datas[t], s);
    hide PinsFrom;
    SlotsStay(st, env, |lh|, datas, b, datas[t], true, s);
  }

  /** All of install_trans from iteration `t` has been written. */
  ghost predicate InstalledFrom(st: Store, env: Env, lh: seq<nat>, t: nat, datas: seq<Block>, s: Store)
    requires t <= |lh| == |datas| && env.lay.start < |st.disk|
  {
    && |s.es| == |st.es| && |s.disk| == |st.disk| && StoreOk(s, env, {})
    && s.writes == st.writes + Installs(lh, datas)[t..]
    && Busy(s.es) == Busy(st.es)
    && (forall x: nat :: x < |st.disk| && x !in lh[t..] ==> Cont(s, env, x) == Cont(st, env, x))
    && (forall i :: t <= i < |lh| ==> lh[i] < |st.disk| && Cont(s, env, lh[i]) == datas[i])
    && (forall x: nat :: x in Busy(st.es) ==> Refs(s, env, x) == Refs(st, env, x) - if x in lh[t..] then 1 else 0)
  }

  lemma InstalledNext(st: Store, env: Env, lh: seq<nat>, t: nat, datas: seq<Block>, f: Store, s: Store)
    requires t < |lh| == |datas| && env.lay.start < |st.disk| && lh[t] < |st.disk| && lh[t] != env.lay.start
    requires lh[t] in Busy(st.es) && Wrote(st, env, lh[t], datas[t], true, f) && Distinct(lh)
    requires InstalledFrom(f, env, lh, t + 1, datas, s)
    ensures InstalledFrom(st, env, lh, t, datas, s)
  {
    hide StoreOk, Busy, Cont, Refs;
    assert Busy(st.es) + {lh[t]} == Busy(st.es);
    assert lh[t..] == [lh[t]] + lh[t + 1..] && lh[t] !in lh[t + 1..];
    assert Installs(lh, datas)[t..] == [Write(lh[t], datas[t])] + Installs(lh, datas)[t + 1..];
  }

  lemma {:induction false} InstallCopies(st: Store, env: Env, lh: seq<nat>, t: nat, datas: seq<Block>)
    requires InstallReady(st, env, lh, t, datas) && t <= |lh| == |datas|
    ensures Addressable(st.disk, env.lay, lh)
    ensures var f := InstallTrans(st, env, lh, t, false);
      f.Next? && InstalledFrom(st, env, lh, t, datas, f.st)
    decreases |lh| - t
  {
    AllAddressable(st, env, lh);
    if t == |lh| {
      hide Cont, Busy;
      assert Installs(lh, datas)[t..] == [];
    } else {
      hide SlotAt, Busy, StoreOk, CopyBlock, Cont, Refs, Wrote, InstalledFrom, SlotsReady, PinsFrom;
      InstallIteration(st, env, lh, t, datas);
      var f := CopyBlock(st, env, env.lay.Slot(t), lh[t], false, true);
      WroteBasics(st, env, lh[t], datas[t], true, f.st);
      InstallCopies(f.st, env, lh, t + 1, datas);
      assert Home(env.lay, st.disk, lh[t]) && lh[t] in Busy(st.es);
      InstalledNext(st, env, lh, t, datas, f.st, InstallTrans(f.st, env, lh, t + 1, false).st);
    }
  }

  // ---- the whole commit ---------------------------------------------------

  lemma AfterHeader(st: Store, env: Env, lh: seq<nat>, datas: seq<Block>, s1: Store, h: Block, s2: Store)
    requires LoopReady(s1, env, lh) && |datas| == |lh| && PinsFrom(s1, env, lh, 0) && |s1.disk| == |st.disk|
    requires SlotsFilled(st, env, datas, 0, s1) && env.lay.start < |s1.disk|
    requires Wrote(s1, env, env.lay.start, h, false, s2)
    ensures InstallReady(s2, env, lh, 0, datas)
  {
    hide SlotAt, Busy, StoreOk, Cont, Refs;
    LoopStays(s1, env, lh, env.lay.start, h, false, s2);
    AllAddressable(s1, env, lh);
    assert PinsFrom(s2, env, lh, 0) by {
      assert forall i :: 0 <= i < |lh| ==> Home(env.lay, s1.disk, lh[i]) && lh[i] != env.lay.start;
    }
    hide PinsFrom;
    assert SlotsReady(s2, env, |lh|, datas) by {
      forall i | 0 <= i < |lh|
        ensures env.lay.Slot(i) in Busy(s2.es) && Cont(s2, env, env.lay.Slot(i)) == datas[i]
      {
        assert env.lay.Slot(i) in SlotSet(env.lay, 0, |datas|);
      }
    }
  }

  lemma ReadyFacts(st: Store, env: Env, lh: seq<nat>)
    requires Ready(st, env, lh)
    ensures LoopReady(st, env, lh) && PinsFrom(st, env, lh, 0) && Addressable(st.disk, env.lay, lh)
    ensures forall i :: 0 <= i < |lh| ==> lh[i] < |st.disk|
    ensures Committable(env.lay, st.disk, lh, Datas(st, env, lh))
    ensures Cont(st, env, env.lay.start) == st.disk[env.lay.start] && lh != []
  {
    hide StoreOk, Busy, Cont, Refs, HeaderBlocks, HeaderCount;
    AllAddressable(st, env, lh);
  }

  lemma WritesAddUp(st: Store, env: Env, lh: seq<nat>, datas: seq<Block>, h: Block,
                    w1: seq<Write>, w2: seq<Write>, w3: seq<Write>, w4: seq<Write>)
    requires Committable(env.lay, st.disk, lh, datas) && h == WithHeader(st.disk[env.lay.start], lh)
    requires w1 == st.writes + SlotWrites(env.lay, datas)[0..] && w2 == w1 + [Write(env.lay.start, h)]
    requires w3 == w2 + Installs(lh, datas)[0..] && w4 == w3 + [Write(env.lay.start, WithHeader(h, lh[..0]))]
    ensures w4 == st.writes + CommitWrites(env.lay, st.disk, lh, datas)
  {
    hide WithHeader, HeaderBlocks, HeaderCount;
    assert SlotWrites(env.lay, datas)[0..] == SlotWrites(env.lay, datas);
    assert Installs(lh, datas)[0..] == Installs(lh, datas);
  }

  /** The commit ran to its end and performed exactly the crash-atomic sequence of Recovery.CommitWrites. */
  ghost predicate Completes(st: Store, env: Env, lh: seq<nat>, f: Flow) {
    && (forall i :: 0 <= i < |lh| ==> lh[i] < |st.disk|)
    && Committable(env.lay, st.disk, lh, Datas(st, env, lh))
    && f.Next? && f.st.writes == st.writes + CommitWrites(env.lay, st.disk, lh, Datas(st, env, lh))
  }

  lemma FirstHalf(st: Store, env: Env, lh: seq<nat>)
    requires Ready(st, env, lh) && Room(st, env, lh)
    ensures Addressable(st.disk, env.lay, lh) && (forall i :: 0 <= i < |lh| ==> lh[i] < |st.disk|)
    ensures var datas := Datas(st, env, lh); var f1 := WriteLog(st, env, lh, 0);
      && f1.Next? && SlotsFilled(st, env, datas, 0, f1.st) && LoopReady(f1.st, env, lh) && PinsFrom(f1.st, env, lh, 0)
      && Cont(f1.st, env, env.lay.start) == st.disk[env.lay.start]
      && |Busy(f1.st.es) + {env.lay.start}| <= |f1.st.es|
      && |f1.st.disk| == |st.disk| && f1.st.writes == st.writes + SlotWrites(env.lay, datas)[0..]
  {
    ReadyFacts(st, env, lh);
    hide SlotAt, Busy, StoreOk, Cont, Refs, LoopReady, WriteLog, Ready;
    var n := |lh|;
    SubsetFits(Busy(st.es) + SlotSet(env.lay, 0, n), Busy(st.es) + SlotSet(env.lay, 0, n) + {env.lay.start}, |st.es|);
    WriteLogFills(st, env, lh, 0, Datas(st, env, lh));
  }

  lemma ReadyStore(st: Store, env: Env, lh: seq<nat>)
    requires LoopReady(st, env, lh)
    ensures StoreOk(st, env, {}) && env.lay.start < |st.disk| && |lh| <= LOGSIZE
  {
  }

  lemma HeaderIn(st: Store, env: Env, b: nat, h: Block, s: Store)
    requires b < |st.disk| && Wrote(st, env, b, h, false, s)
    ensures Cont(s, env, b) == h && b in Busy(s.es) && |s.disk| == |st.disk| && |s.es| == |st.es|
    ensures s.writes == st.writes + [Write(b, h)] && Busy(s.es) + {b} == Busy(s.es)
  {
  }

  /** From the header write on, in a state where all slots are filled. */
  lemma SecondHalf(st: Store, env: Env, lh: seq<nat>, datas: seq<Block>, s1: Store)
    requires Addressable(st.disk, env.lay, lh) && |datas| == |lh|
    requires SlotsFilled(st, env, datas, 0, s1) && LoopReady(s1, env, lh) && PinsFrom(s1, env, lh, 0)
    requires Cont(s1, env, env.lay.start) == st.disk[env.lay.start] && |Busy(s1.es) + {env.lay.start}| <= |s1.es|
    ensures WriteHead(s1, env, lh).Next? && |WriteHead(s1, env, lh).st.disk| == |st.disk|
    ensures var s2 := WriteHead(s1, env, lh).st; var f3 := InstallTrans(s2, env, lh, 0, false);
      && f3.Next? && |f3.st.disk| == |st.disk|
      && var f4 := WriteHead(f3.st, env, lh[..0]); f4.Next? && Ends(st, env, lh, datas, s1, s2, f3.st, f4.st)
  {
    hide SlotAt, Busy, StoreOk, Cont, Refs, WithHeader, LoopReady, PinsFrom, InstallReady, WriteHead, InstallTrans, Wrote;
    var start, h := env.lay.start, WithHeader(st.disk[env.lay.start], lh);
    ReadyStore(s1, env, lh);
    HeadOk(s1, env, lh);
    var s2 := WriteHead(s1, env, lh).st;
    AfterHeader(st, env, lh, datas, s1, h, s2);
    HeaderIn(s1, env, start, h, s2);
    assert start !in lh && forall i :: 0 <= i < |lh| ==> lh[i] < |st.disk| by { HeaderNotLogged(s1, env, lh); }
    hide SlotsFilled;
    InstallCopies(s2, env, lh, 0, datas);
    HeadOk(InstallTrans(s2, env, lh, 0, false).st, env, lh[..0]);
  }

  /** The header write, install_trans and the clearing of the header, one after the other. */
  ghost predicate Ends(st: Store, env: Env, lh: seq<nat>, datas: seq<Block>, s1: Store, s2: Store, s3: Store, s4: Store)
    requires Addressable(st.disk, env.lay, lh) && |datas| == |lh|
  {
    var h := WithHeader(st.disk[env.lay.start], lh);
    && |s1.disk| == |s2.disk| == |s3.disk| == |st.disk|
    && Wrote(s1, env, env.lay.start, h, false, s2)
    && InstalledFrom(s2, env, lh, 0, datas, s3)
    && Wrote(s3, env, env.lay.start, WithHeader(h, lh[..0]), false, s4)
  }

  lemma HeaderNotLogged(st: Store, env: Env, lh: seq<nat>)
    requires LoopReady(st, env, lh)
    ensures env.lay.start !in lh && forall i :: 0 <= i < |lh| ==> lh[i] < |st.disk|
  {
    AllAddressable(st, env, lh);
    hide LoopReady;
  }

  lemma EndWrites(st: Store, env: Env, lh: seq<nat>, datas: seq<Block>, s1: Store, s2: Store, s3: Store, s4: Store)
    requires Addressable(st.disk, env.lay, lh) && |datas| == |lh| && Ends(st, env, lh, datas, s1, s2, s3, s4)
    ensures var h := WithHeader(st.disk[env.lay.start], lh);
      s4.writes == s1.writes + [Write(env.lay.start, h)] + Installs(lh, datas)[0..]
                   + [Write(env.lay.start, WithHeader(h, lh[..0]))]
  {
    hide Busy, StoreOk, Cont, Refs, WithHeader;
  }

  lemma CommitShape(st: Store, env: Env, lh: seq<nat>)
    requires Addressable(st.disk, env.lay, lh) && lh != []
    requires var f1 := WriteLog(st, env, lh, 0); f1.Next? && |f1.st.disk| == |st.disk|
    requires var s1 := WriteLog(st, env, lh, 0).st; var f2 := WriteHead(s1, env, lh);
      f2.Next? && |f2.st.disk| == |st.disk|
    requires var s1 := WriteLog(st, env, lh, 0).st; var s2 := WriteHead(s1, env, lh).st;
      var f3 := InstallTrans(s2, env, lh, 0, false);
      f3.Next? && |f3.st.disk| == |st.disk|
    ensures var s1 := WriteLog(st, env, lh, 0).st; var s2 := WriteHead(s1, env, lh).st;
      Commit(st, env, lh) == WriteHead(InstallTrans(s2, env, lh, 0, false).st, env, lh[..0])
  {
    hide WriteLog, WriteHead, InstallTrans;
  }

  lemma RoomyCommitCompletes(st: Store, env: Env, lh: seq<nat>)
    requires Ready(st, env, lh) && Room(st, env, lh)
    ensures Addressable(st.disk, env.lay, lh) && Completes(st, env, lh, Commit(st, env, lh))
  {
    hide SlotAt, Busy, StoreOk, Cont, Refs, HeaderBlocks, HeaderCount, WithHeader, LoopReady, CommitWrites, Commit,
      PinsFrom, WriteLog, WriteHead, InstallTrans, Ready, Committable, Datas, SlotsFilled, SlotWrites, Installs, Room, Ends;
    ReadyFacts(st, env, lh);
    FirstHalf(st, env, lh);
    var datas, start, h := Datas(st, env, lh), env.lay.start, WithHeader(st.disk[env.lay.start], lh);
    var s1 := WriteLog(st, env, lh, 0).st;
    SecondHalf(st, env, lh, datas, s1);
    CommitShape(st, env, lh);
    var s2 := WriteHead(s1, env, lh).st;
    var s3 := InstallTrans(s2, env, lh, 0, false).st;
    EndWrites(st, env, lh, datas, s1, s2, s3, WriteHead(s3, env, lh[..0]).st);
    var w2 := s1.writes + [Write(start, h)];
    var w3 := w2 + Installs(lh, datas)[0..];
    WritesAddUp(st, env, lh, datas, h, s1.writes, w2, w3, w3 + [Write(start, WithHeader(h, lh[..0]))]);
  }

  // ---- without room -------------------------------------------------------

  /** The block count never changes; an iteration performs at most one write. */
  ghost predicate AtMost(st: Store, k: nat, f: Flow) {
    |f.st.disk| == |st.disk| && |f.st.writes| <= |st.writes| + k
  }

  lemma TailCounts(st: Store, env: Env, src: nat, tgt: nat, unpin: bool)
    ensures AtMost(st, 1, Next(CopyTail(st, env, src, tgt, unpin)))
  {
    hide Pos, Release, Unpin, DataOf;
  }

  lemma CopyCounts(st: Store, env: Env, first: nat, second: nat, toFirst: bool, unpin: bool)
    requires first < |st.disk| && second < |st.disk|
    ensures AtMost(st, 1, CopyBlock(st, env, first, second, toFirst, unpin))
    ensures BlockRead(st, env, if toFirst then first else second).Null? && toFirst ==>
      AtMost(st, 0, CopyBlock(st, env, first, second, toFirst, unpin))
  {
    hide CopyTail, Get, Pos;
    match BlockRead(st, env, first)
    case Blocked(_) =>
    case Null =>
    case Loaded(s1, a) =>
      match BlockRead(s1, env, second)
      case Blocked(_) =>
      case Null =>
      case Loaded(s2, b) =>
        TailCounts(s2, env, b, a, unpin);
        TailCounts(s2, env, a, b, unpin);
  }

  lemma HeadCounts(st: Store, env: Env, blocks: seq<nat>)
    requires env.lay.start < |st.disk| && |blocks| <= LOGSIZE
    ensures AtMost(st, 1, WriteHead(st, env, blocks))
    ensures BlockRead(st, env, env.lay.start).Null? ==> AtMost(st, 0, WriteHead(st, env, blocks))
  {
    hide Pos, Release, Get, WithHeader, DataOf;
  }

  lemma {:induction false} WriteLogCounts(st: Store, env: Env, lh: seq<nat>, t: nat)
    requires Addressable(st.disk, env.lay, lh) && t <= |lh|
    ensures AtMost(st, |lh| - t, WriteLog(st, env, lh, t))
    decreases |lh| - t
  {
    if t < |lh| {
      CopyCounts(st, env, env.lay.Slot(t), lh[t], true, false);
      var f := CopyBlock(st, env, env.lay.Slot(t), lh[t], true, false);
      hide CopyBlock;
      if f.Next? { WriteLogCounts(f.st, env, lh, t + 1); }
    }
  }

  lemma {:induction false} InstallCounts(st: Store, env: Env, lh: seq<nat>, t: nat, recovering: bool)
    requires Addressable(st.disk, env.lay, lh) && t <= |lh|
    ensures AtMost(st, |lh| - t, InstallTrans(st, env, lh, t, recovering))
    decreases |lh| - t
  {
    if t < |lh| {
      CopyCounts(st, env, env.lay.Slot(t), lh[t], false, !recovering);
      var f := CopyBlock(st, env, env.lay.Slot(t), lh[t], false, !recovering);
      hide CopyBlock;
      if f.Next? { InstallCounts(f.st, env, lh, t + 1, recovering); }
    }
  }

  /** One turn of write_log's loop. */
  lemma WriteLogTurn(st: Store, env: Env, lh: seq<nat>, t: nat)
    requires Addressable(st.disk, env.lay, lh) && t < |lh|
    ensures env.lay.Slot(t) < |st.disk|
    ensures var f := CopyBlock(st, env, env.lay.Slot(t), lh[t], true, false);
      && |f.st.disk| == |st.disk| && Addressable(f.st.disk, env.lay, lh)
      && WriteLog(st, env, lh, t) == if f.Next? then WriteLog(f.st, env, lh, t + 1) else f
  {
    CopyCounts(st, env, env.lay.Slot(t), lh[t], true, false);
    hide CopyBlock;
  }

  /** One turn of install_trans's loop. */
  lemma InstallTurn(st: Store, env: Env, lh: seq<nat>, t: nat, recovering: bool)
    requires Addressable(st.disk, env.lay, lh) && t < |lh|
    ensures env.lay.Slot(t) < |st.disk|
    ensures var f := CopyBlock(st, env, env.lay.Slot(t), lh[t], false, !recovering);
      && |f.st.disk| == |st.disk| && Addressable(f.st.disk, env.lay, lh)
      && InstallTrans(st, env, lh, t, recovering) == if f.Next? then InstallTrans(f.st, env, lh, t + 1, recovering) else f
  {
    CopyCounts(st, env, env.lay.Slot(t), lh[t], false, !recovering);
    hide CopyBlock;
  }

  lemma LoopsEnd(st: Store, env: Env, lh: seq<nat>)
    requires Addressable(st.disk, env.lay, lh)
    ensures WriteLog(st, env, lh, |lh|) == Next(st)
    ensures forall recovering :: InstallTrans(st, env, lh, |lh|, recovering) == Next(st)
  {
  }

  /** commit as its sequence of calls. */
  lemma CommitTurn(st: Store, env: Env, lh: seq<nat>)
    requires Addressable(st.disk, env.lay, lh) && lh != []
    ensures var f1 := WriteLog(st, env, lh, 0);
      && |f1.st.disk| == |st.disk|
      && (f1.Stuck? ==> Commit(st, env, lh) == f1)
      && (f1.Next? ==>
            var f2 := WriteHead(f1.st, env, lh);
            && |f2.st.disk| == |st.disk|
            && (f2.Stuck? ==> Commit(st, env, lh) == f2)
            && (f2.Next? ==>
                  var f3 := InstallTrans(f2.st, env, lh, 0, false);
                  && |f3.st.disk| == |st.disk|
                  && Commit(st, env, lh) == if f3.Stuck? then f3 else WriteHead(f3.st, env, lh[..0])))
  {
    hide WriteLog, WriteHead, InstallTrans;
    WriteLogCounts(st, env, lh, 0);
    var f1 := WriteLog(st, env, lh, 0);
    if f1.Next? {
      HeadCounts(f1.st, env, lh);
      var f2 := WriteHead(f1.st, env, lh);
      if f2.Next? {
        InstallCounts(f2.st, env, lh, 0, false);
      }
    }
  }

  lemma EmptyCommit(st: Store, env: Env)
    requires Addressable(st.disk, env.lay, [])
    ensures Commit(st, env, []) == Next(st)
  {
  }

  /** write_log and the header write after it. */
  function LogAndHead(st: Store, env: Env, lh: seq<nat>, t: nat): Flow
    requires Addressable(st.disk, env.lay, lh)
  {
    var f := WriteLog(st, env, lh, t);
    if f.Next? && |f.st.disk| == |st.disk| then WriteHead(f.st, env, lh) else f
  }

  lemma CrampedHeader(st: Store, env: Env, lh: seq<nat>)
    requires LoopReady(st, env, lh) && |Busy(st.es) + {env.lay.start}| > |st.es|
    ensures Addressable(st.disk, env.lay, lh) && AtMost(st, 0, LogAndHead(st, env, lh, |lh|))
  {
    AllAddressable(st, env, lh);
    hide SlotAt, Busy, StoreOk, BlockRead;
    ReadyStore(st, env, lh);
    ReadOutcomeOnly(st, env, env.lay.start, lh);
    HeadCounts(st, env, lh);
  }

  lemma CrampedSlot(st: Store, env: Env, lh: seq<nat>, t: nat)
    requires LoopReady(st, env, lh) && t < |lh| && |Busy(st.es) + {env.lay.Slot(t)}| > |st.es|
    ensures Addressable(st.disk, env.lay, lh) && AtMost(st, |lh| - t, LogAndHead(st, env, lh, t))
  {
    AllAddressable(st, env, lh);
    var b := env.lay.Slot(t);
    ReadOutcomeOnly(st, env, b, lh);
    CopyCounts(st, env, b, lh[t], true, false);
    var f := CopyBlock(st, env, b, lh[t], true, false);
    hide CopyBlock, WriteHead, LoopReady, Busy, BlockRead;
    if f.Next? {
      WriteLogCounts(f.st, env, lh, t + 1);
      var g := WriteLog(f.st, env, lh, t + 1);
      if g.Next? { HeadCounts(g.st, env, lh); }
    }
  }

  lemma LogAndHeadNext(st: Store, env: Env, lh: seq<nat>, t: nat, k: nat)
    requires Addressable(st.disk, env.lay, lh) && t < |lh|
    requires var f := CopyBlock(st, env, env.lay.Slot(t), lh[t], true, false);
      f.Next? && AtMost(st, 1, f) && AtMost(f.st, k, LogAndHead(f.st, env, lh, t + 1))
    ensures AtMost(st, k + 1, LogAndHead(st, env, lh, t))
  {
    hide CopyBlock, WriteHead;
  }

  lemma NoSlotSet(x: set<nat>, lay: Layout, t: nat)
    ensures x + SlotSet(lay, t, t) == x
  {
  }

  /** When the slots and the header do not fit, one of their writes is missing. */
  lemma {:induction false} CrampedIsShort(st: Store, env: Env, lh: seq<nat>, t: nat)
    requires LoopReady(st, env, lh) && t <= |lh|
    requires |Busy(st.es) + SlotSet(env.lay, t, |lh|) + {env.lay.start}| > |st.es|
    ensures Addressable(st.disk, env.lay, lh) && AtMost(st, |lh| - t, LogAndHead(st, env, lh, t))
    decreases |lh| - t
  {
    hide SlotAt, Busy, StoreOk, CopyBlock, Cont, Refs, Wrote, WriteHead, WriteLog, LoopReady, LogAndHead, SlotSet, Addressable;
    AllAddressable(st, env, lh);
    var start, b := env.lay.start, env.lay.Slot(t);
    if t == |lh| {
      NoSlotSet(Busy(st.es), env.lay, t);
      CrampedHeader(st, env, lh);
    } else if |Busy(st.es) + {b}| > |st.es| {
      CrampedSlot(st, env, lh, t);
    } else {
      SlotIteration(st, env, lh, t);
      CopyCounts(st, env, b, lh[t], true, false);
      var f := CopyBlock(st, env, b, lh[t], true, false);
      WroteBasics(st, env, b, Cont(st, env, lh[t]), false, f.st);
      SlotsSplit(Busy(st.es), Busy(f.st.es), env.lay, t, |lh|);
      CrampedIsShort(f.st, env, lh, t + 1);
      LogAndHeadNext(st, env, lh, t, |lh| - t - 1);
    }
  }

  lemma ReadOutcomeOnly(st: Store, env: Env, b: nat, lh: seq<nat>)
    requires LoopReady(st, env, lh) && b < |st.disk|
    ensures BlockRead(st, env, b).Loaded? <==> |Busy(st.es) + {b}| <= |st.es|
    ensures !BlockRead(st, env, b).Blocked?
  {
    ReadOutcome(st, env, {}, b);
  }

  /** commit writes the complete crash-atomic sequence if and only if the blocks it ties up fit the cache. */
  lemma CommitCompletesIffRoom(st: Store, env: Env, lh: seq<nat>)
    requires Ready(st, env, lh)
    ensures Addressable(st.disk, env.lay, lh)
    ensures Completes(st, env, lh, Commit(st, env, lh)) <==> Room(st, env, lh)
  {
    ReadyFacts(st, env, lh);
    if Room(st, env, lh) {
      RoomyCommitCompletes(st, env, lh);
    } else {
      CrampedIsShort(st, env, lh, 0);
      hide SlotAt, Busy, StoreOk, WriteLog, WriteHead, InstallTrans, LoopReady, Ready, PinsFrom, Room, Committable;
      WriteLogCounts(st, env, lh, 0);
      var f2 := LogAndHead(st, env, lh, 0);
      var f := Commit(st, env, lh);
      if f2.Next? && WriteLog(st, env, lh, 0).Next? {
        InstallCounts(f2.st, env, lh, 0, false);
        var f3 := InstallTrans(f2.st, env, lh, 0, false);
        if f3.Next? { HeadCounts(f3.st, env, lh[..0]); }
      }
      assert |f.st.writes| <= |st.writes| + 2 * |lh| + 1;
    }
  }

  function Elements(s: seq<nat>): (r: set<nat>)
    ensures forall b: nat :: b in r <==> b in s
  {
    if s == [] then {} else Elements(s[..|s| - 1]) + {s[|s| - 1]}
  }

  lemma {:induction false} DistinctCount(s: seq<nat>)
    requires Distinct(s)
    ensures |Elements(s)| == |s|
  {
    if s != [] {
      DistinctCount(s[..|s| - 1]);
    }
  }

  lemma ApartSizes(homes: set<nat>, slots: set<nat>, start: nat)
    requires homes !! slots && start !in homes && start !in slots
    ensures |(homes + {start}) + slots + {start}| == |homes| + |slots| + 1
  {
    assert (homes + {start}) + slots + {start} == (homes + slots) + {start};
  }

  lemma HomesApart(st: Store, env: Env, lh: seq<nat>)
    requires Ready(st, env, lh)
    ensures Elements(lh) !! SlotSet(env.lay, 0, |lh|) && env.lay.start !in Elements(lh) && env.lay.start !in SlotSet(env.lay, 0, |lh|)
  {
    ReadyFacts(st, env, lh);
    AllAddressable(st, env, lh);
    hide Ready, StoreOk, LoopReady, Busy, HeaderBlocks, LogOk;
  }

  /** The first commit after boot, when only its pinned blocks and the header are busy, completes exactly
      for groups of at most 14 blocks. */
  lemma FourteenBlocksFit(st: Store, env: Env, lh: seq<nat>)
    requires Ready(st, env, lh) && |st.es| == NBUF
    requires Busy(st.es) == Elements(lh) + {env.lay.start}
    ensures Room(st, env, lh) <==> |lh| <= 14
  {
    LoggedDistinct(st, env, lh);
    hide Ready, Busy, Elements, Distinct;
    HomesApart(st, env, lh);
    DistinctCount(lh);
    ApartSizes(Elements(lh), SlotSet(env.lay, 0, |lh|), env.lay.start);
  }

  lemma LoggedDistinct(st: Store, env: Env, lh: seq<nat>)
    requires Ready(st, env, lh)
    ensures Distinct(lh)
  {
    hide StoreOk, Busy, HeaderBlocks, Cont, Refs;
  }

  // ---- recovery over the real cache ---------------------------------------

  /** recover_from_log after read_head, on a cache in which nothing is referenced or dirty. */
  function RecoverFromLog(st: Store, env: Env, lh: seq<nat>): Flow
    requires Addressable(st.disk, env.lay, lh)
  {
    var f := InstallTrans(st, env, lh, 0, true);
    if f.Stuck? || |f.st.disk| != |st.disk| then f else WriteHead(f.st, env, lh[..0])
  }

  /** Iteration `t` of the replay: the first `t` home blocks are busy, nothing else. */
  ghost predicate Replaying(st: Store, env: Env, lh: seq<nat>, t: nat, d: Disk) {
    && StoreOk(st, env, {}) && Fits(env.lay, d) && |st.disk| == |d| && Loggable(env.lay, d, lh) && t <= |lh|
    && Busy(st.es) == Elements(lh[..t]) && |lh| < |st.es|
    && forall x: nat :: x < |d| && env.lay.InLog(x) ==> Cont(st, env, x) == d[x]
  }

  lemma ReplayFits(st: Store, env: Env, lh: seq<nat>, t: nat, d: Disk)
    requires Replaying(st, env, lh, t, d) && t < |lh|
    ensures Home(env.lay, d, lh[t]) && env.lay.InLog(env.lay.Slot(t)) && env.lay.Slot(t) < |d|
    ensures |Busy(st.es) + {env.lay.Slot(t)} + {lh[t]}| <= |st.es|
  {
    hide StoreOk, Busy, Cont;
    DistinctCount(lh[..t]);
    assert |Busy(st.es)| == t;
  }

  lemma ReplayKeeps(st: Store, env: Env, lh: seq<nat>, t: nat, d: Disk, data: Block, s: Store)
    requires Replaying(st, env, lh, t, d) && t < |lh| && lh[t] < |d|
    requires Wrote(st, env, lh[t], data, false, s)
    ensures Replaying(s, env, lh, t + 1, d)
  {
    hide StoreOk, Busy, Cont, Refs;
    assert Home(env.lay, d, lh[t]);
    assert lh[..t + 1][..t] == lh[..t];
  }

  lemma ReplayStep(st: Store, env: Env, lh: seq<nat>, t: nat, d: Disk)
    requires Replaying(st, env, lh, t, d) && t < |lh|
    ensures lh[t] < |st.disk| && env.lay.Slot(t) < |st.disk|
    ensures var f := CopyBlock(st, env, env.lay.Slot(t), lh[t], false, false);
      && f.Next? && Replaying(f.st, env, lh, t + 1, d)
      && f.st.writes == st.writes + [Write(lh[t], d[env.lay.Slot(t)])]
  {
    hide SlotAt, Busy, StoreOk, CopyBlock, Cont, Refs, Wrote;
    var a, b := env.lay.Slot(t), lh[t];
    ReplayFits(st, env, lh, t, d);
    CopyOk(st, env, a, b, false, false);
    var s := CopyBlock(st, env, a, b, false, false).st;
    assert Wrote(st, env, b, d[a], false, s);
    WroteBasics(st, env, b, d[a], false, s);
    ReplayKeeps(st, env, lh, t, d, d[a], s);
  }

  lemma ReplayAddressable(st: Store, env: Env, lh: seq<nat>, t: nat, d: Disk)
    requires Replaying(st, env, lh, t, d)
    ensures Addressable(st.disk, env.lay, lh) && |st.disk| == |d| && t <= |lh|
  {
    hide StoreOk, Busy, Cont;
    assert forall i :: 0 <= i < |lh| ==> Home(env.lay, d, lh[i]);
  }

  lemma InstallsSplit(lh: seq<nat>, datas: seq<Block>, t: nat)
    requires t <= |lh| == |datas|
    ensures Installs(lh, datas)[t..] ==
      if t == |lh| then [] else [Write(lh[t], datas[t])] + Installs(lh, datas)[t + 1..]
  {
  }

  ghost predicate SlotDatas(env: Env, d: Disk, datas: seq<Block>) {
    forall i :: 0 <= i < |datas| ==> env.lay.Slot(i) < |d| && datas[i] == d[env.lay.Slot(i)]
  }

  /** The replay from iteration `t` ended in `s`. */
  ghost predicate Replayed(st: Store, env: Env, lh: seq<nat>, t: nat, d: Disk, datas: seq<Block>, s: Store)
    requires t <= |lh| == |datas|
  {
    Replaying(s, env, lh, |lh|, d) && s.writes == st.writes + Installs(lh, datas)[t..]
  }

  lemma ReplayedNext(st: Store, env: Env, lh: seq<nat>, t: nat, d: Disk, datas: seq<Block>, f: Store, s: Store)
    requires t < |lh| == |datas| && f.writes == st.writes + [Write(lh[t], datas[t])]
    requires Replayed(f, env, lh, t + 1, d, datas, s)
    ensures Replayed(st, env, lh, t, d, datas, s)
  {
    hide Replaying, Installs;
    InstallsSplit(lh, datas, t);
  }

  lemma {:induction false} ReplayLoop(st: Store, env: Env, lh: seq<nat>, t: nat, d: Disk, datas: seq<Block>)
    requires Replaying(st, env, lh, t, d) && |datas| == |lh| && SlotDatas(env, d, datas)
    ensures Addressable(st.disk, env.lay, lh) && t <= |lh|
    ensures var f := InstallTrans(st, env, lh, t, true); f.Next? && Replayed(st, env, lh, t, d, datas, f.st)
    decreases |lh| - t
  {
    ReplayAddressable(st, env, lh, t, d);
    if t == |lh| {
      InstallsSplit(lh, datas, t);
      hide Replaying;
    } else {
      ReplayStep(st, env, lh, t, d);
      var f := CopyBlock(st, env, env.lay.Slot(t), lh[t], false, false);
      ReplayAddressable(f.st, env, lh, t + 1, d);
      assert f.st.writes == st.writes + [Write(lh[t], datas[t])];
      hide CopyBlock, Replaying, Installs, SlotDatas, Replayed;
      ReplayLoop(f.st, env, lh, t + 1, d, datas);
      ReplayedNext(st, env, lh, t, d, datas, f.st, InstallTrans(f.st, env, lh, t + 1, true).st);
    }
  }

  lemma ReplayStart(st: Store, env: Env, lh: seq<nat>)
    requires StoreOk(st, env, {}) && Fits(env.lay, st.disk) && Loggable(env.lay, st.disk, lh)
    requires Busy(st.es) == {} && |lh| < |st.es|
    ensures Replaying(st, env, lh, 0, st.disk)
  {
    hide SlotAt, StoreOk, Cont;
    forall x: nat | x < |st.disk| ensures Cont(st, env, x) == st.disk[x] { CleanReadsDisk(st, env, {}, x); }
    assert lh[..0] == [];
  }

  lemma ReplayEnd(st: Store, env: Env, lh: seq<nat>, d: Disk)
    requires Replaying(st, env, lh, |lh|, d)
    ensures |Busy(st.es) + {env.lay.start}| <= |st.es| && StoreOk(st, env, {}) && env.lay.start < |st.disk|
    ensures Cont(st, env, env.lay.start) == d[env.lay.start] && |lh| <= LOGSIZE
  {
    hide StoreOk, Busy, Cont;
    assert lh[..|lh|] == lh;
    DistinctCount(lh);
  }

  lemma RecoverWritesAre(lay: Layout, d: Disk)
    requires LogOk(lay, d)
    ensures var lh := HeaderBlocks(d[lay.start]);
      RecoverWrites(lay, d) ==
        Installs(lh, SlotContents(lay, d, |lh|))[0..] + [Write(lay.start, WithHeader(d[lay.start], lh[..0]))]
  {
    var lh := HeaderBlocks(d[lay.start]);
    assert Installs(lh, SlotContents(lay, d, |lh|))[0..] == Installs(lh, SlotContents(lay, d, |lh|));
    hide HeaderBlocks, HeaderCount, WithHeader;
  }

  lemma ReplayAll(st: Store, env: Env, lh: seq<nat>, d: Disk, datas: seq<Block>)
    requires Replaying(st, env, lh, 0, d) && |datas| == |lh| && SlotDatas(env, d, datas)
    ensures Addressable(st.disk, env.lay, lh)
    ensures var f := RecoverFromLog(st, env, lh);
      && f.Next? && env.lay.start < |d| && |lh| <= LOGSIZE
      && f.st.writes == st.writes + (Installs(lh, datas)[0..] + [Write(env.lay.start, WithHeader(d[env.lay.start], lh[..0]))])
      && StoreOk(f.st, env, {}) && |f.st.disk| == |d|
      && Cont(f.st, env, env.lay.start) == f.st.disk[env.lay.start] == WithHeader(d[env.lay.start], lh[..0])
  {
    hide Replaying, InstallTrans, Installs, SlotDatas, WriteHead, StoreOk, Busy, Cont, WithHeader;
    ReplayLoop(st, env, lh, 0, d, datas);
    var s := InstallTrans(st, env, lh, 0, true).st;
    ReplayAddressable(st, env, lh, 0, d);
    ReplayAddressable(s, env, lh, |lh|, d);
    ReplayEnd(s, env, lh, d);
    HeadWrites(s, env, {}, lh[..0]);
  }

  lemma ClearedHeader(lay: Layout, d: Disk, h: Block, lh: seq<nat>, s: Disk)
    requires Fits(lay, d) && |s| == |d| && |lh| <= LOGSIZE && s[lay.start] == WithHeader(h, lh[..0])
    ensures LogOk(lay, s) && HeaderBlocks(s[lay.start]) == []
  {
    HeaderRoundTrip(h, lh[..0]);
    hide HeaderBlocks, HeaderCount, WithHeader;
  }

  /** Recovery never runs out of buffers: with more buffers than logged blocks it performs exactly
      Recovery.RecoverWrites. The kernel's 30 buffers suffice for every log it can have written. */
  lemma RecoveryCompletes(st: Store, env: Env)
    requires StoreOk(st, env, {}) && LogOk(env.lay, st.disk) && Busy(st.es) == {}
    requires |HeaderBlocks(st.disk[env.lay.start])| < |st.es|
    ensures var lh := HeaderBlocks(st.disk[env.lay.start]);
      && Addressable(st.disk, env.lay, lh)
      && var f := RecoverFromLog(st, env, lh);
         f.Next? && f.st.writes == st.writes + RecoverWrites(env.lay, st.disk) && Quiet(f.st, env)
  {
    var lh, d := HeaderBlocks(st.disk[env.lay.start]), st.disk;
    hide SlotAt, StoreOk, HeaderBlocks, HeaderCount, WithHeader, Busy, Replaying, RecoverWrites, Installs, RecoverFromLog;
    RecoverWritesAre(env.lay, d);
    ReplayStart(st, env, lh);
    ReplayAll(st, env, lh, d, SlotContents(env.lay, d, |lh|));
    ClearedHeader(env.lay, d, d[env.lay.start], lh, RecoverFromLog(st, env, lh).st.disk);
  }
}
