/** commit when the slots of the log do not all find a buffer: the transaction can be torn, and the process sleeps
    for ever on a lock it holds itself. */
module CommitStarved {
  import opened Params
  import opened Storage
  import opened Recovery
  import opened LogCore
  import opened CacheModel
  import opened CacheMap
  import opened CommitModel
  import opened CommitFacts
  import opened CommitTheorems

  /** The busy blocks and the slots from `t` on do not fit the cache together. */
  ghost predicate Overfull(st: Store, env: Env, lh: seq<nat>, t: nat) {
    |Busy(st.es) + SlotSet(env.lay, t, |lh|)| > |st.es|
  }

  /** In the middle of commit, the locks on the home blocks `locked` being kept by skipped iterations. */
  ghost predicate Amid(st: Store, env: Env, lh: seq<nat>, locked: set<nat>) {
    && StoreOk(st, env, locked) && Fits(env.lay, st.disk) && Loggable(env.lay, st.disk, lh)
    && (forall i :: 0 <= i < |lh| ==> lh[i] in Busy(st.es))
    && (forall b: nat :: b in locked ==> !env.lay.InLog(b))
  }

  lemma AmidFacts(st: Store, env: Env, lh: seq<nat>, locked: set<nat>, t: nat)
    requires Amid(st, env, lh, locked) && t < |lh|
    ensures Addressable(st.disk, env.lay, lh) && lh[t] < |st.disk| && env.lay.Slot(t) < |st.disk|
    ensures env.lay.Slot(t) !in locked && env.lay.start !in locked && !env.lay.InLog(lh[t]) && env.lay.InLog(env.lay.Slot(t))
    ensures lh[t] != env.lay.Slot(t) && lh[t] != env.lay.start && lh[t] in Busy(st.es)
    ensures forall i :: 0 <= i < |lh| && i != t ==> lh[i] != lh[t]
  {
    hide StoreOk, Busy;
    assert forall i :: 0 <= i < |lh| ==> Home(env.lay, st.disk, lh[i]);
  }

  lemma AmidAddressable(st: Store, env: Env, lh: seq<nat>, locked: set<nat>)
    requires Amid(st, env, lh, locked)
    ensures Addressable(st.disk, env.lay, lh) && env.lay.start < |st.disk| && env.lay.start !in locked
  {
    hide StoreOk, Busy;
    assert forall i :: 0 <= i < |lh| ==> Home(env.lay, st.disk, lh[i]);
  }

  /** A block write elsewhere keeps the commit where it is. */
  lemma AmidWrote(st: Store, env: Env, lh: seq<nat>, locked: set<nat>, b: nat, data: Block, unpin: bool, s: Store)
    requires Amid(st, env, lh, locked) && b < |st.disk| && WroteAmid(st, env, locked, b, data, unpin, s)
    ensures Amid(s, env, lh, locked)
  {
    hide StoreOk, Busy, Cont, Refs;
  }

  lemma PinsWrote(st: Store, env: Env, lh: seq<nat>, locked: set<nat>, t: nat, b: nat, data: Block, s: Store)
    requires Amid(st, env, lh, locked) && b < |st.disk| && WroteAmid(st, env, locked, b, data, false, s)
    requires PinsFrom(st, env, lh, t)
    ensures PinsFrom(s, env, lh, t)
  {
    hide StoreOk, Busy, Cont, Refs;
  }

  lemma PinsDropped(st: Store, env: Env, lh: seq<nat>, locked: set<nat>, t: nat, data: Block, s: Store)
    requires Amid(st, env, lh, locked) && t < |lh| && lh[t] < |st.disk| && WroteAmid(st, env, locked, lh[t], data, true, s)
    requires PinsFrom(st, env, lh, t)
    ensures PinsFrom(s, env, lh, t + 1)
  {
    AmidFacts(st, env, lh, locked, t);
    hide StoreOk, Busy, Cont, Refs;
  }

  // ---- one iteration ------------------------------------------------------

  /** What a skipped iteration leaves: nothing written, one more lock and reference. */
  ghost predicate Skipped(st: Store, env: Env, locked: set<nat>, b: nat, s: Store) {
    && StoreOk(s, env, locked + {b}) && s.disk == st.disk && s.writes == st.writes
    && |s.es| == |st.es| && Busy(s.es) == Busy(st.es)
    && (forall x: nat :: x < |st.disk| ==> Cont(s, env, x) == Cont(st, env, x))
    && (forall x: nat :: x in Busy(st.es) ==> Refs(s, env, x) >= Refs(st, env, x))
  }

  lemma EffectSkips(st: Store, env: Env, locked: set<nat>, b: nat, s: Store, id: nat)
    requires b < |st.disk| && b in Busy(st.es) && ReadEffect(st, env, locked, b, s, id)
    ensures Skipped(st, env, locked, b, s)
  {
    hide StoreOk, Busy, SlotAt, Cont;
    assert Busy(st.es) + {b} == Busy(st.es);
  }

  /** Block `b` was read and never given back: locked, referenced once more, nothing written. */
  ghost predicate Kept(st: Store, env: Env, locked: set<nat>, b: nat, s: Store)
    requires b < |st.disk|
  {
    Slot(s, env, b).Some? && ReadEffect(st, env, locked, b, s, Slot(s, env, b).value.id)
  }

  /** One iteration, by what the cache has room for: both blocks, and the copy is made; one of them, and its lock and
      reference are kept for ever; neither, and nothing happens. */
  lemma CopyOutcome(st: Store, env: Env, locked: set<nat>, first: nat, second: nat, toFirst: bool, unpin: bool)
    requires StoreOk(st, env, locked) && first != second && first < |st.disk| && second < |st.disk|
    requires first !in locked && second !in locked
    requires unpin ==> Refs(st, env, if toFirst then first else second) >= 1
    ensures var f, n := CopyBlock(st, env, first, second, toFirst, unpin), |st.es|;
      && f.Next?
      && (if |Busy(st.es) + {first} + {second}| <= n then
            Copied(st, env, locked, if toFirst then first else second, if toFirst then second else first, unpin, f.st)
          else if |Busy(st.es) + {first}| <= n then Kept(st, env, locked, first, f.st)
          else if |Busy(st.es) + {second}| <= n then Kept(st, env, locked, second, f.st)
          else f.st == st)
  {
    if |Busy(st.es) + {first} + {second}| <= |st.es| {
      hide SlotAt, Busy, StoreOk, CopyBlock, Cont, Refs, WroteAmid;
      CopyAmid(st, env, locked, first, second, toFirst, unpin);
    } else {
      hide SlotAt, Busy, StoreOk, BlockRead, Cont, Refs, CopyTail;
      ReadOutcome(st, env, locked, first);
      ReadOutcome(st, env, locked, second);
      var r := BlockRead(st, env, first);
      if r.Loaded? {
        ReadOutcome(r.st, env, locked + {first}, second);
      }
    }
  }

  lemma SkipTurn(st: Store, env: Env, lh: seq<nat>, locked: set<nat>, t: nat, toFirst: bool, unpin: bool)
    requires Amid(st, env, lh, locked) && t < |lh| && lh[t] !in locked && |Busy(st.es) + {env.lay.Slot(t)}| > |st.es|
    ensures lh[t] < |st.disk| && env.lay.Slot(t) < |st.disk|
    ensures var f := CopyBlock(st, env, env.lay.Slot(t), lh[t], toFirst, unpin);
      f.Next? && Skipped(st, env, locked, lh[t], f.st) && Amid(f.st, env, lh, locked + {lh[t]})
  {
    AmidFacts(st, env, lh, locked, t);
    hide SlotAt, Busy, StoreOk, BlockRead, Cont, Refs, ReadEffect, CopyTail;
    var slot, b := env.lay.Slot(t), lh[t];
    assert Busy(st.es) + {b} == Busy(st.es);
    ReadOutcome(st, env, locked, slot);
    ReadOutcome(st, env, locked, b);
    BusyFits(st.es);
    EffectSkips(st, env, locked, b, BlockRead(st, env, b).st, BlockRead(st, env, b).id);
  }

  lemma BusyFits(es: seq<Entry>)
    ensures |Busy(es)| <= |es|
  {
  }

  lemma FillTurn(st: Store, env: Env, lh: seq<nat>, locked: set<nat>, t: nat)
    requires Amid(st, env, lh, locked) && t < |lh| && lh[t] !in locked && |Busy(st.es) + {env.lay.Slot(t)}| <= |st.es|
    ensures lh[t] < |st.disk| && env.lay.Slot(t) < |st.disk|
    ensures var f := CopyBlock(st, env, env.lay.Slot(t), lh[t], true, false);
      && f.Next? && WroteAmid(st, env, locked, env.lay.Slot(t), Cont(st, env, lh[t]), false, f.st)
      && Amid(f.st, env, lh, locked)
  {
    AmidFacts(st, env, lh, locked, t);
    assert StoreOk(st, env, locked);
    hide SlotAt, Busy, StoreOk, CopyBlock, Cont, Refs, Amid, WroteAmid;
    var slot, b := env.lay.Slot(t), lh[t];
    assert Busy(st.es) + {slot} + {b} == Busy(st.es) + {slot};
    CopyAmid(st, env, locked, slot, b, true, false);
    AmidWrote(st, env, lh, locked, slot, Cont(st, env, b), false, CopyBlock(st, env, slot, b, true, false).st);
  }

  lemma InstallTurnAmid(st: Store, env: Env, lh: seq<nat>, locked: set<nat>, t: nat)
    requires Amid(st, env, lh, locked) && t < |lh| && lh[t] !in locked && |Busy(st.es) + {env.lay.Slot(t)}| <= |st.es|
    requires PinsFrom(st, env, lh, t)
    ensures lh[t] < |st.disk| && env.lay.Slot(t) < |st.disk|
    ensures var f := CopyBlock(st, env, env.lay.Slot(t), lh[t], false, true);
      f.Next? && Amid(f.st, env, lh, locked) && PinsFrom(f.st, env, lh, t + 1)
  {
    AmidFacts(st, env, lh, locked, t);
    assert StoreOk(st, env, locked) && Refs(st, env, lh[t]) >= 1;
    hide SlotAt, Busy, StoreOk, CopyBlock, Cont, Refs, Amid, WroteAmid, PinsFrom;
    var slot, b := env.lay.Slot(t), lh[t];
    assert Busy(st.es) + {slot} + {b} == Busy(st.es) + {slot};
    CopyAmid(st, env, locked, slot, b, false, true);
    var s := CopyBlock(st, env, slot, b, false, true).st;
    AmidWrote(st, env, lh, locked, b, Cont(st, env, slot), true, s);
    PinsDropped(st, env, lh, locked, t, Cont(st, env, slot), s);
  }

  /** An iteration whose home block is locked sleeps for ever, whatever its slot read does. */
  lemma BlockedTurn(st: Store, env: Env, lh: seq<nat>, locked: set<nat>, t: nat, toFirst: bool, unpin: bool)
    requires Amid(st, env, lh, locked) && t < |lh| && lh[t] in locked
    ensures lh[t] < |st.disk| && env.lay.Slot(t) < |st.disk|
    ensures CopyBlock(st, env, env.lay.Slot(t), lh[t], toFirst, unpin).Stuck?
  {
    AmidFacts(st, env, lh, locked, t);
    hide SlotAt, Busy, StoreOk, BlockRead, Cont, Refs, CopyTail;
    var slot, b := env.lay.Slot(t), lh[t];
    ReadOutcome(st, env, locked, slot);
    ReadBlocked(st, env, locked, b);
    var r := BlockRead(st, env, slot);
    if r.Loaded? {
      ReadBlocked(r.st, env, locked + {slot}, b);
    }
  }

  // ---- write_log ----------------------------------------------------------

  /** A write to block `b` is among the newer ones. */
  ghost predicate Issued(before: seq<Write>, after: seq<Write>, b: nat) {
    exists j :: |before| <= j < |after| && after[j].block == b
  }

  /** write_log from iteration `t` on has gone from `st` to `s`: only slots from `t` on were written or cached. */
  ghost predicate Went(st: Store, env: Env, n: nat, t: nat, s: Store) {
    && |s.disk| == |st.disk| && |s.es| == |st.es|
    && Busy(st.es) <= Busy(s.es) <= Busy(st.es) + SlotSet(env.lay, t, n)
    && (forall x: nat :: x < |st.disk| && !(env.lay.Slot(t) <= x < env.lay.Slot(n)) ==>
          s.disk[x] == st.disk[x] && Cont(s, env, x) == Cont(st, env, x))
    && |st.writes| <= |s.writes|
    && (forall j :: |st.writes| <= j < |s.writes| ==> env.lay.Slot(t) <= s.writes[j].block < env.lay.Slot(n))
    && st.writes == s.writes[..|st.writes|]
  }

  lemma WentNowhere(st: Store, env: Env, n: nat, t: nat)
    ensures Went(st, env, n, t, st)
  {
    hide Busy, Cont;
  }

  lemma SkipWent(st: Store, env: Env, n: nat, t: nat, locked: set<nat>, b: nat, f: Store, s: Store)
    requires t < n && Skipped(st, env, locked, b, f) && Went(f, env, n, t + 1, s)
    ensures Went(st, env, n, t, s)
  {
    hide StoreOk, Busy, Cont, Refs, SlotSet;
    SlotSetNext(env.lay, t, n);
  }

  lemma FillWent(st: Store, env: Env, n: nat, t: nat, locked: set<nat>, data: Block, f: Store, s: Store)
    requires t < n && env.lay.Slot(t) < |st.disk| && WroteAmid(st, env, locked, env.lay.Slot(t), data, false, f)
    requires Went(f, env, n, t + 1, s)
    ensures Went(st, env, n, t, s)
  {
    hide StoreOk, Busy, Cont, Refs, SlotSet;
    SlotSetNext(env.lay, t, n);
    assert st.writes == f.writes[..|st.writes|] == s.writes[..|f.writes|][..|st.writes|];
  }

  lemma PinsSkipped(st: Store, env: Env, lh: seq<nat>, locked: set<nat>, t: nat, b: nat, s: Store)
    requires Amid(st, env, lh, locked) && Skipped(st, env, locked, b, s) && PinsFrom(st, env, lh, t)
    ensures PinsFrom(s, env, lh, t)
  {
    hide StoreOk, Busy, Cont, Refs;
  }

  /** None of the blocks from `t` on is locked. */
  ghost predicate FreeFrom(lh: seq<nat>, locked: set<nat>, t: nat) { forall i :: t <= i < |lh| ==> lh[i] !in locked }

  lemma FreeNext(st: Store, env: Env, lh: seq<nat>, locked: set<nat>, t: nat)
    requires Amid(st, env, lh, locked) && t < |lh| && FreeFrom(lh, locked, t)
    ensures FreeFrom(lh, locked, t + 1) && FreeFrom(lh, locked + {lh[t]}, t + 1) && lh[t] !in locked
  {
    AmidFacts(st, env, lh, locked, t);
    hide Amid;
  }

  /** write_log never sleeps: what it cannot copy it skips, keeping the home block locked. */
  lemma {:induction false} WriteLogGoes(st: Store, env: Env, lh: seq<nat>, locked: set<nat>, t: nat) returns (l: set<nat>)
    requires Amid(st, env, lh, locked) && t <= |lh| && FreeFrom(lh, locked, t) && PinsFrom(st, env, lh, 0)
    ensures Addressable(st.disk, env.lay, lh) && locked <= l
    ensures var f := WriteLog(st, env, lh, t);
      f.Next? && Went(st, env, |lh|, t, f.st) && Amid(f.st, env, lh, l) && PinsFrom(f.st, env, lh, 0)
    decreases |lh| - t
  {
    hide SlotAt, Busy, StoreOk, CopyBlock, Cont, Refs, Amid, Went, WriteLog, WroteAmid, Skipped, PinsFrom, FreeFrom;
    AmidAddressable(st, env, lh, locked);
    if t == |lh| {
      l := locked;
      LoopsEnd(st, env, lh);
      WentNowhere(st, env, |lh|, t);
    } else {
      WriteLogTurn(st, env, lh, t);
      FreeNext(st, env, lh, locked, t);
      var slot, b := env.lay.Slot(t), lh[t];
      var f := CopyBlock(st, env, slot, b, true, false);
      if |Busy(st.es) + {slot}| > |st.es| {
        SkipTurn(st, env, lh, locked, t, true, false);
        PinsSkipped(st, env, lh, locked, 0, b, f.st);
        l := WriteLogGoes(f.st, env, lh, locked + {b}, t + 1);
        SkipWent(st, env, |lh|, t, locked, b, f.st, WriteLog(f.st, env, lh, t + 1).st);
      } else {
        FillTurn(st, env, lh, locked, t);
        PinsWrote(st, env, lh, locked, 0, slot, Cont(st, env, b), f.st);
        l := WriteLogGoes(f.st, env, lh, locked, t + 1);
        FillWent(st, env, |lh|, t, locked, Cont(st, env, b), f.st, WriteLog(f.st, env, lh, t + 1).st);
      }
    }
  }

  // ---- the slots do not fit -----------------------------------------------

  /** Slot `k` got no buffer: its home block stayed locked, the slot was never written, and no buffer is free. */
  ghost predicate Missed(st: Store, env: Env, lh: seq<nat>, locked: set<nat>, k: nat, s: Store) {
    && k < |lh| && lh[k] in locked && env.lay.Slot(k) < |st.disk| == |s.disk|
    && s.disk[env.lay.Slot(k)] == st.disk[env.lay.Slot(k)]
    && !Issued(st.writes, s.writes, env.lay.Slot(k))
    && |Busy(s.es)| == |s.es|
  }

  lemma MissedNow(st: Store, env: Env, lh: seq<nat>, t: nat, f: Store, l: set<nat>, s: Store)
    requires t < |lh| && lh[t] in l && env.lay.Slot(t) < |st.disk| && |Busy(st.es) + {env.lay.Slot(t)}| > |st.es|
    requires f.disk == st.disk && f.writes == st.writes && |f.es| == |st.es| && Busy(f.es) == Busy(st.es)
    requires Went(f, env, |lh|, t + 1, s)
    ensures Missed(st, env, lh, l, t, s)
  {
    hide Busy, Cont, SlotSet;
    BusyFits(st.es);
    BusyFits(s.es);
    assert |Busy(st.es)| == |st.es|;
    SubsetFits(Busy(st.es), Busy(s.es), |s.es|);
    assert Busy(s.es) == Busy(f.es) + (Busy(s.es) - Busy(f.es));
  }

  lemma MissedEarlier(st: Store, env: Env, lh: seq<nat>, t: nat, locked: set<nat>, data: Block, f: Store, l: set<nat>, k: nat, s: Store)
    requires env.lay.Slot(t) < |st.disk| && WroteAmid(st, env, locked, env.lay.Slot(t), data, false, f)
    requires t < k && Missed(f, env, lh, l, k, s) && Went(f, env, |lh|, t + 1, s)
    ensures Missed(st, env, lh, l, k, s)
  {
    hide Busy, Cont, StoreOk, Refs;
    assert s.writes[|st.writes|] == s.writes[..|f.writes|][|st.writes|];
  }

  /** Overfull loops reach a slot that finds no buffer. */
  lemma {:induction false} Starves(st: Store, env: Env, lh: seq<nat>, t: nat) returns (l: set<nat>, k: nat)
    requires Amid(st, env, lh, {}) && t <= |lh| && PinsFrom(st, env, lh, 0) && Overfull(st, env, lh, t)
    ensures Addressable(st.disk, env.lay, lh)
    ensures var f := WriteLog(st, env, lh, t);
      && f.Next? && Went(st, env, |lh|, t, f.st) && Amid(f.st, env, lh, l) && PinsFrom(f.st, env, lh, 0)
      && t <= k && Missed(st, env, lh, l, k, f.st)
    decreases |lh| - t
  {
    hide SlotAt, Busy, StoreOk, CopyBlock, Cont, Refs, Amid, Went, WriteLog, WroteAmid, Skipped, PinsFrom, SlotSet, Missed;
    AmidAddressable(st, env, lh, {});
    if t == |lh| {
      NoSlotSet(Busy(st.es), env.lay, t);
      BusyFits(st.es);
    } else {
      WriteLogTurn(st, env, lh, t);
      var slot, b := env.lay.Slot(t), lh[t];
      var f := CopyBlock(st, env, slot, b, true, false);
      var s := WriteLog(f.st, env, lh, t + 1).st;
      if |Busy(st.es) + {slot}| > |st.es| {
        SkipTurn(st, env, lh, {}, t, true, false);
        PinsSkipped(st, env, lh, {}, 0, b, f.st);
        FreeNext(st, env, lh, {}, t);
        l := WriteLogGoes(f.st, env, lh, {} + {b}, t + 1);
        SkipWent(st, env, |lh|, t, {}, b, f.st, s);
        k := t;
        SkippedFacts(st, env, {}, b, f.st);
        MissedNow(st, env, lh, t, f.st, l, s);
      } else {
        FillTurn(st, env, lh, {}, t);
        PinsWrote(st, env, lh, {}, 0, slot, Cont(st, env, b), f.st);
        WroteFacts(st, env, {}, slot, Cont(st, env, b), f.st);
        SlotsSplit(Busy(st.es), Busy(f.st.es), env.lay, t, |lh|);
        l, k := Starves(f.st, env, lh, t + 1);
        FillWent(st, env, |lh|, t, {}, Cont(st, env, b), f.st, s);
        MissedEarlier(st, env, lh, t, {}, Cont(st, env, b), f.st, l, k, s);
      }
    }
  }

  lemma SkippedFacts(st: Store, env: Env, locked: set<nat>, b: nat, s: Store)
    requires Skipped(st, env, locked, b, s)
    ensures s.disk == st.disk && s.writes == st.writes && |s.es| == |st.es| && Busy(s.es) == Busy(st.es)
  {
  }

  lemma WroteFacts(st: Store, env: Env, locked: set<nat>, b: nat, data: Block, s: Store)
    requires b < |st.disk| && WroteAmid(st, env, locked, b, data, false, s)
    ensures |s.es| == |st.es| && Busy(s.es) == Busy(st.es) + {b}
  {
  }

  // ---- the header and install_trans ---------------------------------------

  /** write_head writes the header if its block finds a buffer and does nothing otherwise. */
  ghost predicate HeadDone(st: Store, env: Env, locked: set<nat>, blocks: seq<nat>, s: Store)
    requires env.lay.start < |st.disk| && |blocks| <= LOGSIZE
  {
    if |Busy(st.es) + {env.lay.start}| <= |st.es|
    then WroteAmid(st, env, locked, env.lay.start, WithHeader(Cont(st, env, env.lay.start), blocks), false, s)
    else s == st
  }

  lemma HeadRuns(st: Store, env: Env, locked: set<nat>, blocks: seq<nat>)
    requires StoreOk(st, env, locked) && env.lay.start < |st.disk| && |blocks| <= LOGSIZE && env.lay.start !in locked
    ensures var f := WriteHead(st, env, blocks); f.Next? && HeadDone(st, env, locked, blocks, f.st)
  {
    hide SlotAt, Busy, StoreOk, BlockRead, WithHeader, WroteAmid, Cont;
    if |Busy(st.es) + {env.lay.start}| <= |st.es| {
      hide WriteHead;
      HeadWrites(st, env, locked, blocks);
    } else {
      ReadOutcome(st, env, locked, env.lay.start);
    }
  }

  lemma HeadGoes(st: Store, env: Env, lh: seq<nat>, locked: set<nat>)
    requires Amid(st, env, lh, locked) && PinsFrom(st, env, lh, 0)
    ensures env.lay.start < |st.disk| && |lh| <= LOGSIZE
    ensures var f := WriteHead(st, env, lh);
      && f.Next? && |f.st.disk| == |st.disk| && HeadDone(st, env, locked, lh, f.st)
      && Amid(f.st, env, lh, locked) && PinsFrom(f.st, env, lh, 0)
  {
    AmidAddressable(st, env, lh, locked);
    assert StoreOk(st, env, locked);
    hide StoreOk, Busy, Cont, WithHeader, WriteHead, Amid, PinsFrom;
    HeadRuns(st, env, locked, lh);
    var start, h := env.lay.start, WithHeader(Cont(st, env, env.lay.start), lh);
    var s := WriteHead(st, env, lh).st;
    if |Busy(st.es) + {start}| <= |st.es| {
      AmidWrote(st, env, lh, locked, start, h, false, s);
      PinsWrote(st, env, lh, locked, 0, start, h, s);
    }
  }

  /** install_trans runs until it comes to a block that is still locked, and sleeps there. */
  lemma {:induction false} InstallSticks(st: Store, env: Env, lh: seq<nat>, locked: set<nat>, t: nat, k: nat)
    requires Amid(st, env, lh, locked) && PinsFrom(st, env, lh, t) && t <= k < |lh| && lh[k] in locked
    ensures Addressable(st.disk, env.lay, lh) && InstallTrans(st, env, lh, t, false).Stuck?
    decreases k - t
  {
    hide SlotAt, Busy, StoreOk, CopyBlock, Cont, Refs, Amid, InstallTrans, Skipped, PinsFrom;
    AmidAddressable(st, env, lh, locked);
    InstallTurn(st, env, lh, t, false);
    var f := CopyBlock(st, env, env.lay.Slot(t), lh[t], false, true);
    if lh[t] in locked {
      BlockedTurn(st, env, lh, locked, t, false, true);
    } else if |Busy(st.es) + {env.lay.Slot(t)}| > |st.es| {
      SkipTurn(st, env, lh, locked, t, false, true);
      PinsSkipped(st, env, lh, locked, t, lh[t], f.st);
      PinsLater(f.st, env, lh, t);
      InstallSticks(f.st, env, lh, locked + {lh[t]}, t + 1, k);
    } else {
      InstallTurnAmid(st, env, lh, locked, t);
      InstallSticks(f.st, env, lh, locked, t + 1, k);
    }
  }

  lemma PinsLater(st: Store, env: Env, lh: seq<nat>, t: nat)
    requires PinsFrom(st, env, lh, t)
    ensures PinsFrom(st, env, lh, t + 1)
  {
    hide Refs;
  }

  // ---- the whole commit ---------------------------------------------------

  lemma ReadyAmid(st: Store, env: Env, lh: seq<nat>)
    requires Ready(st, env, lh)
    ensures Amid(st, env, lh, {}) && PinsFrom(st, env, lh, 0) && lh != [] && Addressable(st.disk, env.lay, lh)
  {
    hide StoreOk, Busy, Cont, Refs, HeaderBlocks, HeaderCount;
    ReadyFacts(st, env, lh);
  }

  lemma OverfullSticks(st: Store, env: Env, lh: seq<nat>)
    requires Ready(st, env, lh) && Overfull(st, env, lh, 0)
    ensures Addressable(st.disk, env.lay, lh) && Commit(st, env, lh).Stuck?
  {
    hide Busy, Ready, Amid, PinsFrom, WriteLog, WriteHead, InstallTrans, Commit, Overfull, Went, HeadDone;
    ReadyAmid(st, env, lh);
    var l, k := Starves(st, env, lh, 0);
    CommitTurn(st, env, lh);
    var s := WriteLog(st, env, lh, 0).st;
    HeadGoes(s, env, lh, l);
    InstallSticks(WriteHead(s, env, lh).st, env, lh, l, 0, k);
  }

  lemma SlotKept(st: Store, env: Env, datas: seq<Block>, s: Store, i: nat)
    requires SlotsFilled(st, env, datas, 0, s) && i < |datas| && env.lay.Slot(i) < |s.disk|
    ensures env.lay.Slot(i) in Busy(s.es) && Cont(s, env, env.lay.Slot(i)) == datas[i]
  {
    hide Busy, Cont, Refs, SlotWrites;
    assert env.lay.Slot(i) in SlotSet(env.lay, 0, |datas|);
  }

  lemma FilledReady(st: Store, env: Env, lh: seq<nat>, datas: seq<Block>, s: Store)
    requires LoopReady(s, env, lh) && |datas| == |lh| && PinsFrom(s, env, lh, 0) && SlotsFilled(st, env, datas, 0, s)
    ensures InstallReady(s, env, lh, 0, datas)
  {
    AllAddressable(s, env, lh);
    hide StoreOk, Busy, Cont, Refs, LoopReady, PinsFrom, SlotsFilled;
    forall i: nat | i < |lh|
      ensures env.lay.Slot(i) < |s.disk| && env.lay.Slot(i) in Busy(s.es) && Cont(s, env, env.lay.Slot(i)) == datas[i]
    {
      SlotKept(st, env, datas, s, i);
    }
  }

  /** Slots that fit, a header that does not: the header is not written, everything is installed all the same. */
  lemma HeaderlessCommit(st: Store, env: Env, lh: seq<nat>, s: Store)
    requires Ready(st, env, lh) && Addressable(st.disk, env.lay, lh) && WriteLog(st, env, lh, 0) == Next(s)
    requires forall i :: 0 <= i < |lh| ==> lh[i] < |st.disk|
    requires SlotsFilled(st, env, Datas(st, env, lh), 0, s) && LoopReady(s, env, lh) && PinsFrom(s, env, lh, 0)
    requires |Busy(s.es) + {env.lay.start}| > |s.es|
    ensures Commit(st, env, lh).Next?
  {
    var datas := Datas(st, env, lh);
    ReadyAmid(st, env, lh);
    ReadyStore(s, env, lh);
    AllAddressable(s, env, lh);
    hide Busy, Ready, Amid, PinsFrom, WriteLog, WriteHead, InstallTrans, Commit, SlotsFilled, LoopReady, StoreOk,
      Cont, InstallReady, Datas;
    HeadRuns(s, env, {}, lh);
    FilledReady(st, env, lh, datas, s);
    InstallCopies(s, env, lh, 0, datas);
    CommitTurn(st, env, lh);
    HeadRuns(InstallTrans(s, env, lh, 0, false).st, env, {}, lh[..0]);
  }

  lemma FittingGoes(st: Store, env: Env, lh: seq<nat>)
    requires Ready(st, env, lh) && !Overfull(st, env, lh, 0)
    ensures Addressable(st.disk, env.lay, lh) && Commit(st, env, lh).Next?
  {
    ReadyFacts(st, env, lh);
    hide Busy, Ready, WriteLog, Commit, LoopReady, StoreOk, Cont, Refs, SlotSet, HeadDone;
    WriteLogFills(st, env, lh, 0, Datas(st, env, lh));
    var s := WriteLog(st, env, lh, 0).st;
    assert PinsFrom(s, env, lh, 0);
    if |Busy(s.es) + {env.lay.start}| <= |s.es| {
      RoomyCommitCompletes(st, env, lh);
    } else {
      HeaderlessCommit(st, env, lh, s);
    }
  }

  /** commit sleeps for ever, on the lock of a home block it left locked itself, exactly when the busy blocks
      and the slots of the log need more buffers than there are. */
  lemma CommitSticksIff(st: Store, env: Env, lh: seq<nat>)
    requires Ready(st, env, lh)
    ensures Addressable(st.disk, env.lay, lh)
    ensures Commit(st, env, lh).Stuck? <==> |Busy(st.es) + SlotSet(env.lay, 0, |lh|)| > |st.es|
  {
    hide Busy, Ready, Commit, SlotSet;
    if Overfull(st, env, lh, 0) {
      OverfullSticks(st, env, lh);
    } else {
      FittingGoes(st, env, lh);
    }
  }

  lemma SticksWhenReady(st: Store, env: Env, lh: seq<nat>)
    requires Addressable(st.disk, env.lay, lh)
    ensures Ready(st, env, lh) ==> (Commit(st, env, lh).Stuck? <==> Overfull(st, env, lh, 0))
  {
    hide Ready, Commit, Busy, SlotSet;
    if Ready(st, env, lh) {
      CommitSticksIff(st, env, lh);
    }
  }

  // ---- a torn transaction -------------------------------------------------

  lemma HeadIssued(st: Store, env: Env, locked: set<nat>, blocks: seq<nat>, s: Store, before: seq<Write>)
    requires env.lay.start < |st.disk| && |blocks| <= LOGSIZE && HeadDone(st, env, locked, blocks, s)
    requires |before| <= |st.writes| && !Issued(before, st.writes, env.lay.start)
    ensures Issued(before, s.writes, env.lay.start) <==> |Busy(st.es) + {env.lay.start}| <= |st.es|
    ensures forall b: nat :: b != env.lay.start ==> (Issued(before, s.writes, b) <==> Issued(before, st.writes, b))
  {
    hide Busy, StoreOk, Cont, Refs, WithHeader;
    if |Busy(st.es) + {env.lay.start}| <= |st.es| {
      assert s.writes[|st.writes|].block == env.lay.start;
      forall b: nat | b != env.lay.start ensures Issued(before, s.writes, b) <==> Issued(before, st.writes, b) {
        if Issued(before, st.writes, b) {
          var j :| |before| <= j < |st.writes| && st.writes[j].block == b;
          assert s.writes[j].block == b;
        }
      }
    }
  }

  lemma StartNotIssued(st: Store, env: Env, n: nat, s: Store)
    requires Went(st, env, n, 0, s)
    ensures !Issued(st.writes, s.writes, env.lay.start) && |st.writes| <= |s.writes|
  {
    hide Busy, Cont;
  }

  /** A full cache reads the header exactly when the header has a buffer already. */
  lemma FullReads(st: Store, env: Env, n: nat, s: Store)
    requires Went(st, env, n, 0, s) && |Busy(s.es)| == |s.es|
    ensures |Busy(s.es) + {env.lay.start}| <= |s.es| <==> env.lay.start in Busy(st.es)
  {
    hide Busy, Cont;
    if env.lay.start in Busy(s.es) {
      assert Busy(s.es) + {env.lay.start} == Busy(s.es);
    }
  }

  lemma FilledIssued(st: Store, env: Env, datas: seq<Block>, s: Store)
    requires SlotsFilled(st, env, datas, 0, s)
    ensures forall k: nat :: k < |datas| ==> Issued(st.writes, s.writes, env.lay.Slot(k))
  {
    hide Busy, Cont;
    forall k: nat | k < |datas| ensures Issued(st.writes, s.writes, env.lay.Slot(k)) {
      assert SlotWrites(env.lay, datas)[0..] == SlotWrites(env.lay, datas);
      assert s.writes[|st.writes| + k].block == env.lay.Slot(k);
    }
  }

  lemma LogAndHeadIs(st: Store, env: Env, lh: seq<nat>)
    requires Addressable(st.disk, env.lay, lh)
    requires var f := WriteLog(st, env, lh, 0); f.Next? && |f.st.disk| == |st.disk|
    ensures LogAndHead(st, env, lh, 0) == WriteHead(WriteLog(st, env, lh, 0).st, env, lh)
  {
    hide WriteLog, WriteHead;
  }

  lemma OverfullHead(st: Store, env: Env, lh: seq<nat>) returns (k: nat)
    requires Ready(st, env, lh) && Overfull(st, env, lh, 0)
    ensures Addressable(st.disk, env.lay, lh) && k < |lh| && env.lay.Slot(k) < |st.disk|
    ensures var s := WriteLog(st, env, lh, 0).st; var f := LogAndHead(st, env, lh, 0);
      && f.Next? && |f.st.disk| == |s.disk| == |st.disk|
      && !Issued(st.writes, f.st.writes, env.lay.Slot(k)) && s.disk[env.lay.Slot(k)] == st.disk[env.lay.Slot(k)]
      && s.disk[env.lay.start] == st.disk[env.lay.start]
      && (Issued(st.writes, f.st.writes, env.lay.start) <==> env.lay.start in Busy(st.es))
      && (env.lay.start in Busy(st.es) ==>
            f.st.disk == s.disk[env.lay.start := WithHeader(Cont(s, env, env.lay.start), lh)])
  {
    hide Busy, Ready, Amid, PinsFrom, WriteLog, WriteHead, LogAndHead, Overfull, StoreOk, Cont, WithHeader, Issued, Refs;
    ReadyAmid(st, env, lh);
    var l;
    l, k := Starves(st, env, lh, 0);
    var s := WriteLog(st, env, lh, 0).st;
    HeadGoes(s, env, lh, l);
    LogAndHeadIs(st, env, lh);
    StartNotIssued(st, env, |lh|, s);
    FullReads(st, env, |lh|, s);
    HeadIssued(s, env, l, lh, WriteHead(s, env, lh).st, st.writes);
  }

  /** The header goes to disk over a slot that was never written exactly when the header already has a buffer
      and the slots do not all find one. */
  lemma CommitTearsIff(st: Store, env: Env, lh: seq<nat>)
    requires Ready(st, env, lh)
    ensures Addressable(st.disk, env.lay, lh)
    ensures var f := LogAndHead(st, env, lh, 0);
      && f.Next?
      && ((&& Issued(st.writes, f.st.writes, env.lay.start)
           && exists k: nat :: k < |lh| && !Issued(st.writes, f.st.writes, env.lay.Slot(k)))
          <==> env.lay.start in Busy(st.es) && |Busy(st.es) + SlotSet(env.lay, 0, |lh|)| > |st.es|)
  {
    hide Busy, Ready, LogAndHead, StoreOk, Cont, WithHeader, Issued, SlotSet, Refs, LoopReady;
    if Overfull(st, env, lh, 0) {
      var k := OverfullHead(st, env, lh);
    } else {
      FittingHead(st, env, lh);
    }
  }

  lemma FittingHead(st: Store, env: Env, lh: seq<nat>)
    requires Ready(st, env, lh) && !Overfull(st, env, lh, 0)
    ensures Addressable(st.disk, env.lay, lh)
    ensures var f := LogAndHead(st, env, lh, 0);
      f.Next? && forall k: nat :: k < |lh| ==> Issued(st.writes, f.st.writes, env.lay.Slot(k))
  {
    ReadyFacts(st, env, lh);
    hide Busy, Ready, WriteLog, WriteHead, LogAndHead, StoreOk, Cont, Refs, SlotSet, LoopReady, Issued, HeadDone,
      SlotsFilled;
    WriteLogFills(st, env, lh, 0, Datas(st, env, lh));
    var s := WriteLog(st, env, lh, 0).st;
    FilledSize(st, env, Datas(st, env, lh), s);
    LogAndHeadIs(st, env, lh);
    ReadyStore(s, env, lh);
    HeadRuns(s, env, {}, lh);
    FilledIssued(st, env, Datas(st, env, lh), s);
    StillIssued(st, s, env, lh, WriteHead(s, env, lh).st);
  }

  lemma FilledSize(st: Store, env: Env, datas: seq<Block>, s: Store)
    requires SlotsFilled(st, env, datas, 0, s)
    ensures |s.disk| == |st.disk| && |st.writes| <= |s.writes|
  {
    hide Busy, Cont;
  }

  lemma StillIssued(st: Store, s: Store, env: Env, lh: seq<nat>, s': Store)
    requires env.lay.start < |s.disk| && |lh| <= LOGSIZE && HeadDone(s, env, {}, lh, s')
    requires |st.writes| <= |s.writes|
    ensures forall b: nat :: Issued(st.writes, s.writes, b) ==> Issued(st.writes, s'.writes, b)
  {
    hide Busy, StoreOk, Cont, Refs, WithHeader;
    forall b: nat | Issued(st.writes, s.writes, b) ensures Issued(st.writes, s'.writes, b) {
      var j :| |st.writes| <= j < |s.writes| && s.writes[j].block == b;
      assert s'.writes[j].block == b;
    }
  }

  lemma TornDisk(lay: Layout, d: Disk, s: Disk, lh: seq<nat>, k: nat, head: Block)
    requires LogOk(lay, d) && Loggable(lay, d, lh) && |s| == |d| && k < |lh|
    requires s[lay.start] == d[lay.start]
    ensures lh[k] < |d| && lay.Slot(k) < |d|
    ensures var s' := s[lay.start := WithHeader(head, lh)];
      && LogOk(lay, s') && HeaderBlocks(s'[lay.start]) == lh && Effective(lay, s', lh[k]) == s[lay.Slot(k)]
  {
    assert forall i :: 0 <= i < |lh| ==> Home(lay, d, lh[i]);
    HeaderRoundTrip(head, lh);
    hide HeaderBlocks, HeaderCount, WithHeader;
    assert LogOk(lay, s) && Loggable(lay, s, lh);
    HeaderWriteCommits(lay, s, WithHeader(head, lh), lh);
    IndexOfDistinct(lh, k);
  }

  /** Then the transaction is torn: a crash right after the header write makes what was in some slot before
      the durable content of its home block. */
  lemma CommitTears(st: Store, env: Env, lh: seq<nat>) returns (k: nat)
    requires Ready(st, env, lh) && env.lay.start in Busy(st.es) && Overfull(st, env, lh, 0)
    ensures Addressable(st.disk, env.lay, lh) && k < |lh| && lh[k] < |st.disk| && env.lay.Slot(k) < |st.disk|
    ensures var f := LogAndHead(st, env, lh, 0);
      && f.Next? && |f.st.disk| == |st.disk| && LogOk(env.lay, f.st.disk)
      && HeaderBlocks(f.st.disk[env.lay.start]) == lh
      && Effective(env.lay, f.st.disk, lh[k]) == st.disk[env.lay.Slot(k)]
  {
    hide StoreOk, Cont, Busy, Refs, SlotSet, WriteLog, LogAndHead, WithHeader, HeaderBlocks, HeaderCount, Effective, Overfull;
    var s := WriteLog(st, env, lh, 0).st;
    k := OverfullHead(st, env, lh);
    TornDisk(env.lay, st.disk, s.disk, lh, k, Cont(s, env, env.lay.start));
  }
}
