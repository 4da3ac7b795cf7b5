/** What one pass of commit's loops does to cache and disk, block by block. */
module CommitFacts {
  import opened Wrappers
  import opened Params
  import opened Storage
  import opened Recovery
  import opened LogCore
  import opened CacheModel
  import opened CacheMap
  import opened CommitModel

  /** A slot of the commit's device; `locked` are the blocks whose sleep lock the commit holds. */
  ghost predicate SlotOk(disk: Disk, env: Env, locked: set<nat>, b: nat, e: Entry) {
    && b < |disk|
    && e.owner == (if b in locked then env.pid else 0)
    && (b in locked ==> e.valid && e.refcnt >= 1)
    && (b !in locked ==> e.refcnt + 1 < UINT32)
    && (e.valid && Eligible(e) ==> e.data == disk[b])
  }

  ghost predicate FreeUnlocked(es: seq<Entry>) {
    forall i :: 0 <= i < |es| && Eligible(es[i]) ==> es[i].owner == 0
  }

  ghost predicate SlotsOk(es: seq<Entry>, disk: Disk, env: Env, locked: set<nat>) {
    && (forall b: nat :: SlotAt(es, env.dev, b).Some? ==> SlotOk(disk, env, locked, b, SlotAt(es, env.dev, b).value))
    && (forall b: nat :: b in locked ==> SlotAt(es, env.dev, b).Some?)
  }

  ghost predicate StoreOk(st: Store, env: Env, locked: set<nat>) {
    ListOk(st.es, env.dev) && env.pid != 0 && FreeUnlocked(st.es) && SlotsOk(st.es, st.disk, env, locked)
  }

  function Slot(st: Store, env: Env, b: nat): Option<Entry> { SlotAt(st.es, env.dev, b) }

  /** What a reader of block `b` gets. */
  function Cont(st: Store, env: Env, b: nat): Block
    requires b < |st.disk|
  {
    if Slot(st, env, b).Some? && Slot(st, env, b).value.valid then Slot(st, env, b).value.data else st.disk[b]
  }

  function Refs(st: Store, env: Env, b: nat): nat {
    if Slot(st, env, b).Some? then Slot(st, env, b).value.refcnt else 0
  }

  lemma BusyDiffers(es: seq<Entry>, es': seq<Entry>, dev: nat, b: nat)
    requires ListOk(es, dev) && ListOk(es', dev) && SlotAt(es', dev, b).Some?
    requires OnlyEvicts(es, es', dev, b)
    ensures Busy(es') == if Eligible(SlotAt(es', dev, b).value) then Busy(es) - {b} else Busy(es) + {b}
  {
    hide SlotAt;
    forall x: nat ensures x in Busy(es') <==> x in (if Eligible(SlotAt(es', dev, b).value) then Busy(es) - {b} else Busy(es) + {b}) {
      BusyAt(es, dev, x);
      BusyAt(es', dev, x);
    }
  }

  /** Replacing the slot of block `b` by `e`. */
  lemma SetSlot(st: Store, env: Env, b: nat, e: Entry)
    requires ListOk(st.es, env.dev) && Slot(st, env, b).Some?
    requires e.id == Slot(st, env, b).value.id && HasKey(e, env.dev, b)
    ensures var i := Pos(st.es, e.id); var es' := st.es[FindKey(st.es, env.dev, b) := e];
      && i == FindKey(st.es, env.dev, b) && i < |st.es| && st.es[i] == Slot(st, env, b).value
      && ListOk(es', env.dev)
      && (forall x: nat :: SlotAt(es', env.dev, x) == if x == b then Some(e) else SlotAt(st.es, env.dev, x))
      && Busy(es') == (if Eligible(e) then Busy(st.es) - {b} else Busy(st.es) + {b})
  {
    var i := FindKey(st.es, env.dev, b);
    PosOf(st.es, i);
    UpdateSlot(st.es, env.dev, i, e);
    BusyDiffers(st.es, st.es[i := e], env.dev, b);
  }

  lemma ChangeSlots(es: seq<Entry>, es': seq<Entry>, disk: Disk, env: Env, locked: set<nat>, b: nat, e: Entry, locked': set<nat>)
    requires SlotsOk(es, disk, env, locked) && SlotOk(disk, env, locked', b, e)
    requires locked' == locked || locked' == locked + {b} || locked' == locked - {b}
    requires SlotAt(es', env.dev, b) == Some(e)
    requires forall x: nat :: x != b ==>
      || SlotAt(es', env.dev, x) == SlotAt(es, env.dev, x)
      || (SlotAt(es', env.dev, x) == None && x !in locked)
    ensures SlotsOk(es', disk, env, locked')
  {
    hide SlotAt;
  }

  /** A slot change the commit makes while it holds the lock, or when it gives it up. */
  lemma SetSlotOk(st: Store, env: Env, locked: set<nat>, b: nat, e: Entry, locked': set<nat>)
    requires StoreOk(st, env, locked) && Slot(st, env, b).Some?
    requires e.id == Slot(st, env, b).value.id && HasKey(e, env.dev, b)
    requires locked' == locked || locked' == locked + {b} || locked' == locked - {b}
    requires SlotOk(st.disk, env, locked', b, e)
    ensures StoreOk(st.(es := st.es[FindKey(st.es, env.dev, b) := e]), env, locked')
  {
    hide SlotsOk, ListOk;
    SetSlot(st, env, b, e);
    var es' := st.es[FindKey(st.es, env.dev, b) := e];
    hide SlotAt, Pos, FindKey, Busy;
    assert FreeUnlocked(es') by { hide SlotsOk; }
    hide FreeUnlocked;
    ChangeSlots(st.es, es', st.disk, env, locked, b, e, locked');
  }

  // ---- block_read ---------------------------------------------------------

  ghost predicate ReadEffect(st: Store, env: Env, locked: set<nat>, b: nat, s: Store, id: nat)
    requires b < |st.disk|
  {
    && StoreOk(s, env, locked + {b}) && |s.es| == |st.es| && s.disk == st.disk && s.writes == st.writes
    && Busy(s.es) == Busy(st.es) + {b}
    && (forall x: nat :: x < |st.disk| ==> Cont(s, env, x) == Cont(st, env, x))
    && (forall x: nat :: x != b && x in Busy(st.es) ==> SlotAt(s.es, env.dev, x) == SlotAt(st.es, env.dev, x))
    && Slot(s, env, b).Some?
    && var e := Slot(s, env, b).value;
       && e.id == id && HasKey(e, env.dev, b) && e.valid && e.data == Cont(st, env, b)
       && e.refcnt == Refs(st, env, b) + 1
       && e.dirty == (Slot(st, env, b).Some? && Slot(st, env, b).value.dirty)
  }

  lemma HitShape(st: Store, env: Env, b: nat)
    requires ListOk(st.es, env.dev) && b < |st.disk| && Slot(st, env, b).Some? && Slot(st, env, b).value.owner == 0
    ensures var e := Slot(st, env, b).value;
      BlockRead(st, env, b) ==
        Loaded(st.(es := st.es[FindKey(st.es, env.dev, b) :=
                     e.(refcnt := Inc(e.refcnt), owner := env.pid, valid := true,
                        data := if e.valid then e.data else st.disk[b])]), e.id)
  {
    hide Pos, Busy, OneDevice;
    var i := FindKey(st.es, env.dev, b);
    var e := st.es[i];
    var e1 := e.(refcnt := Inc(e.refcnt));
    SetSlot(st, env, b, e1);
    PosOf(st.es[i := e1], i);
    hide ListOk, SlotAt, FindKey, Inc;
  }

  lemma ReadHit(st: Store, env: Env, locked: set<nat>, b: nat)
    requires StoreOk(st, env, locked) && b < |st.disk| && b !in locked && Slot(st, env, b).Some?
    ensures BlockRead(st, env, b).Loaded?
    ensures ReadEffect(st, env, locked, b, BlockRead(st, env, b).st, BlockRead(st, env, b).id)
  {
    hide ListOk, FindKey, SlotAt, Busy, Pos, BlockRead, FreeUnlocked;
    var e := Slot(st, env, b).value;
    HitShape(st, env, b);
    SlotKey(st.es, env.dev, b);
    var e2 := e.(refcnt := Inc(e.refcnt), owner := env.pid, valid := true,
                 data := if e.valid then e.data else st.disk[b]);
    SetSlot(st, env, b, e2);
    SetSlotOk(st, env, locked, b, e2, locked + {b});
    hide StoreOk;
  }

  lemma SlotKey(es: seq<Entry>, dev: nat, b: nat)
    requires SlotAt(es, dev, b).Some?
    ensures HasKey(SlotAt(es, dev, b).value, dev, b)
  {
  }

  lemma MissShape(st: Store, env: Env, b: nat, k: nat)
    requires ListOk(st.es, env.dev) && b < |st.disk| && Slot(st, env, b).None?
    requires k == LastEligible(st.es) && st.es[k].owner == 0
    ensures var e := Recycled(st.es[k], env.dev, b).(valid := true, data := st.disk[b], owner := env.pid);
      var s := st.(es := st.es[k := e]);
      && BlockRead(st, env, b) == Loaded(s, e.id)
      && ListOk(s.es, env.dev) && SlotAt(s.es, env.dev, b) == Some(e)
      && (forall x: nat :: x != b ==>
           || SlotAt(s.es, env.dev, x) == SlotAt(st.es, env.dev, x)
           || (SlotAt(s.es, env.dev, x) == None && SlotAt(st.es, env.dev, x).Some?
               && Eligible(SlotAt(st.es, env.dev, x).value)))
  {
    var e := Recycled(st.es[k], env.dev, b);
    RecycleSlot(st.es, env.dev, b, k);
    var s1 := st.(es := st.es[k := e]);
    SlotIs(s1.es, env.dev, k);
    PosOf(s1.es, k);
    var e2 := e.(valid := true, data := st.disk[b], owner := env.pid);
    SetSlot(s1, env, b, e2);
    assert s1.es[k := e2] == st.es[k := e2];
    hide ListOk, SlotAt;
  }

  /** Nothing but unreferenced slots may have gone. */
  ghost predicate OnlyEvicts(es: seq<Entry>, es': seq<Entry>, dev: nat, b: nat) {
    forall x: nat :: x != b ==>
      || SlotAt(es', dev, x) == SlotAt(es, dev, x)
      || (SlotAt(es', dev, x) == None && SlotAt(es, dev, x).Some? && Eligible(SlotAt(es, dev, x).value))
  }

  lemma MissStoreOk(st: Store, env: Env, locked: set<nat>, b: nat, s: Store, k: nat, e: Entry)
    requires StoreOk(st, env, locked) && k < |st.es| && s == st.(es := st.es[k := e])
    requires ListOk(s.es, env.dev) && SlotAt(s.es, env.dev, b) == Some(e) && OnlyEvicts(st.es, s.es, env.dev, b)
    requires SlotOk(st.disk, env, locked + {b}, b, e)
    ensures StoreOk(s, env, locked + {b})
  {
    hide ListOk, SlotAt;
    assert FreeUnlocked(s.es) by { hide SlotsOk; }
    hide FreeUnlocked;
    EvictedUnlocked(st, env, locked);
    ChangeSlots(st.es, s.es, st.disk, env, locked, b, e, locked + {b});
  }

  lemma MissReads(st: Store, env: Env, locked: set<nat>, b: nat, s: Store)
    requires SlotsOk(st.es, st.disk, env, locked) && OnlyEvicts(st.es, s.es, env.dev, b) && b < |st.disk|
    requires s.disk == st.disk && SlotAt(st.es, env.dev, b) == None
    requires SlotAt(s.es, env.dev, b).Some? && SlotAt(s.es, env.dev, b).value.data == st.disk[b]
    ensures forall x: nat :: x < |st.disk| ==> Cont(s, env, x) == Cont(st, env, x)
  {
    hide SlotAt;
  }

  lemma ReadMiss(st: Store, env: Env, locked: set<nat>, b: nat)
    requires StoreOk(st, env, locked) && b < |st.disk| && b !in locked && Slot(st, env, b).None?
    requires LastEligible(st.es) >= 0
    ensures BlockRead(st, env, b).Loaded?
    ensures ReadEffect(st, env, locked, b, BlockRead(st, env, b).st, BlockRead(st, env, b).id)
  {
    hide SlotsOk, SlotAt, ListOk;
    var k := LastEligible(st.es);
    MissShape(st, env, b, k);
    hide FindKey, Busy, Pos, BlockRead, FreeUnlocked;
    var s := BlockRead(st, env, b).st;
    var e := Slot(s, env, b).value;
    assert OnlyEvicts(st.es, s.es, env.dev, b);
    MissBusy(st, env, b, s);
    hide OnlyEvicts;
    MissStoreOk(st, env, locked, b, s, k, e);
    MissReads(st, env, locked, b, s);
  }

  lemma EvictedUnlocked(st: Store, env: Env, locked: set<nat>)
    requires SlotsOk(st.es, st.disk, env, locked)
    ensures forall x: nat :: SlotAt(st.es, env.dev, x).Some? && Eligible(SlotAt(st.es, env.dev, x).value) ==> x !in locked
  {
    hide SlotAt;
  }

  lemma MissBusy(st: Store, env: Env, b: nat, s: Store)
    requires ListOk(st.es, env.dev) && ListOk(s.es, env.dev) && Slot(s, env, b).Some? && !Eligible(Slot(s, env, b).value)
    requires OnlyEvicts(st.es, s.es, env.dev, b)
    ensures Busy(s.es) == Busy(st.es) + {b}
    ensures forall x: nat :: x != b && x in Busy(st.es) ==> SlotAt(s.es, env.dev, x) == SlotAt(st.es, env.dev, x)
  {
    BusyDiffers(st.es, s.es, env.dev, b);
    hide SlotAt;
    forall x: nat | x != b && x in Busy(st.es) ensures SlotAt(s.es, env.dev, x) == SlotAt(st.es, env.dev, x) {
      BusyAt(st.es, env.dev, x);
    }
  }

  /** block_read succeeds exactly when the busy blocks and `b` fit the cache together. */
  lemma ReadOutcome(st: Store, env: Env, locked: set<nat>, b: nat)
    requires StoreOk(st, env, locked) && b < |st.disk| && b !in locked
    ensures !BlockRead(st, env, b).Blocked?
    ensures BlockRead(st, env, b).Loaded? <==> |Busy(st.es) + {b}| <= |st.es|
    ensures var r := BlockRead(st, env, b); r.Loaded? ==> ReadEffect(st, env, locked, b, r.st, r.id)
  {
    BusyCount(st.es, env.dev);
    BusyAt(st.es, env.dev, b);
    if Slot(st, env, b).Some? {
      ReadHit(st, env, locked, b);
      if b in Busy(st.es) {
        assert Busy(st.es) + {b} == Busy(st.es);
      }
      ResidentFits(st.es, env.dev, b);
    } else if LastEligible(st.es) >= 0 {
      ReadMiss(st, env, locked, b);
    }
  }

  lemma ResidentFits(es: seq<Entry>, dev: nat, b: nat)
    requires ListOk(es, dev) && SlotAt(es, dev, b).Some?
    ensures |Busy(es) + {b}| <= |es|
  {
    BusyCount(es, dev);
    BusyAt(es, dev, b);
    if b in Busy(es) {
      assert Busy(es) + {b} == Busy(es);
    }
  }

  // ---- the other buffer operations, on a buffer the commit has locked -----

  /** `s` differs from `st` in the slot of `b` alone, up to list order. */
  ghost predicate Changed(st: Store, env: Env, b: nat, e: Entry, s: Store, locked': set<nat>) {
    && StoreOk(s, env, locked') && |s.es| == |st.es|
    && (forall x: nat :: SlotAt(s.es, env.dev, x) == if x == b then Some(e) else SlotAt(st.es, env.dev, x))
    && Busy(s.es) == (if Eligible(e) then Busy(st.es) - {b} else Busy(st.es) + {b})
  }

  ghost predicate Holds(st: Store, env: Env, locked: set<nat>, b: nat, e: Entry) {
    StoreOk(st, env, locked) && b in locked && Slot(st, env, b) == Some(e)
  }

  lemma HeldFacts(st: Store, env: Env, locked: set<nat>, b: nat, e: Entry)
    requires Holds(st, env, locked, b, e)
    ensures b < |st.disk| && e.owner == env.pid != 0 && e.valid && e.refcnt >= 1 && HasKey(e, env.dev, b)
    ensures Pos(st.es, e.id) == FindKey(st.es, env.dev, b) < |st.es|
    ensures st.es[FindKey(st.es, env.dev, b)] == e && SlotOk(st.disk, env, locked, b, e)
  {
    SlotKey(st.es, env.dev, b);
    SetSlot(st, env, b, e);
    hide ListOk;
  }

  lemma ChangeHeld(st: Store, env: Env, locked: set<nat>, b: nat, e: Entry, e': Entry)
    requires Holds(st, env, locked, b, e) && e' == e.(data := e'.data, dirty := e'.dirty, refcnt := e'.refcnt)
    requires e'.refcnt >= 1
    ensures var i := FindKey(st.es, env.dev, b);
      i < |st.es| && Changed(st, env, b, e', st.(es := st.es[i := e']), locked)
  {
    HeldFacts(st, env, locked, b, e);
    hide SlotAt, ListOk, FindKey, Busy, Pos, SlotsOk, FreeUnlocked;
    SetSlot(st, env, b, e');
    SetSlotOk(st, env, locked, b, e', locked);
  }

  lemma FillOk(st: Store, env: Env, locked: set<nat>, b: nat, e: Entry, data: Block)
    requires Holds(st, env, locked, b, e)
    ensures var s := FillBuf(st, e.id, data);
      Changed(st, env, b, e.(data := data), s, locked) && s.disk == st.disk && s.writes == st.writes
  {
    HeldFacts(st, env, locked, b, e);
    ChangeHeld(st, env, locked, b, e, e.(data := data));
    hide SlotAt, ListOk, FindKey, Busy, Pos, SlotsOk, FreeUnlocked;
  }

  lemma DiskWrittenOk(es: seq<Entry>, disk: Disk, env: Env, locked: set<nat>, b: nat, data: Block)
    requires SlotsOk(es, disk, env, locked) && b in locked && b < |disk|
    ensures SlotsOk(es, disk[b := data], env, locked)
  {
    hide SlotAt;
  }

  lemma WriteOk(st: Store, env: Env, locked: set<nat>, b: nat, e: Entry)
    requires Holds(st, env, locked, b, e)
    ensures b < |st.disk|
    ensures var s := BlockWrite(st, env, e.id);
      && Changed(st, env, b, e.(dirty := true), s, locked)
      && s.disk == st.disk[b := e.data] && s.writes == st.writes + [Write(b, e.data)]
  {
    HeldFacts(st, env, locked, b, e);
    ChangeHeld(st, env, locked, b, e, e.(dirty := true));
    var m := st.(es := st.es[FindKey(st.es, env.dev, b) := e.(dirty := true)]);
    DiskWrittenOk(m.es, m.disk, env, locked, b, e.data);
    assert e.(valid := true, dirty := true) == e.(dirty := true);
    hide SlotAt, ListOk, FindKey, Busy, Pos, SlotsOk, FreeUnlocked, SlotOk;
  }

  lemma UnpinOk(st: Store, env: Env, locked: set<nat>, b: nat, e: Entry)
    requires Holds(st, env, locked, b, e) && 2 <= e.refcnt < UINT32
    ensures var s := BufUnpin(st, e.id);
      Changed(st, env, b, e.(refcnt := e.refcnt - 1), s, locked) && s.disk == st.disk && s.writes == st.writes
  {
    hide Dec, Inc, SlotAt, ListOk, FindKey, Busy, Pos, SlotsOk, FreeUnlocked, SlotOk, Changed, Holds;
    HeldFacts(st, env, locked, b, e);
    ChangeHeld(st, env, locked, b, e, e.(refcnt := e.refcnt - 1));
    Counting(e.refcnt);
  }

  lemma MoveOk(st: Store, env: Env, locked: set<nat>, i: nat)
    requires StoreOk(st, env, locked) && i < |st.es|
    ensures var s := st.(es := ToFront(st.es, i));
      && StoreOk(s, env, locked) && |s.es| == |st.es| && Busy(s.es) == Busy(st.es)
      && forall x: nat :: SlotAt(s.es, env.dev, x) == SlotAt(st.es, env.dev, x)
  {
    MoveSlot(st.es, env.dev, i);
    ToFrontAt(st.es, i);
    var es' := ToFront(st.es, i);
    hide ToFront, SlotAt, ListOk;
    forall x: nat ensures x in Busy(es') <==> x in Busy(st.es) {
      BusyAt(st.es, env.dev, x);
      BusyAt(es', env.dev, x);
    }
    hide Busy;
  }

  lemma ReleaseShape(st: Store, env: Env, i: nat, e: Entry)
    requires i < |st.es| && Pos(st.es, e.id) == i && st.es[i] == e && e.owner == env.pid != 0
    requires 1 <= e.refcnt < UINT32
    ensures var es' := st.es[i := e.(owner := 0, refcnt := e.refcnt - 1)];
      BlockRelease(st, env, e.id) == st.(es := if e.refcnt == 1 then ToFront(es', i) else es')
  {
    Counting(e.refcnt);
    hide Dec, ToFront, Pos;
  }

  lemma DropOk(st: Store, env: Env, locked: set<nat>, b: nat, e: Entry, e': Entry)
    requires Holds(st, env, locked, b, e) && e.refcnt < UINT32
    requires e.refcnt == 1 && !e.dirty ==> e.data == st.disk[b]
    requires e' == e.(owner := 0, refcnt := e.refcnt - 1)
    ensures var i := FindKey(st.es, env.dev, b);
      i < |st.es| && Changed(st, env, b, e', st.(es := st.es[i := e']), locked - {b})
  {
    HeldFacts(st, env, locked, b, e);
    hide SlotAt, ListOk, FindKey, Busy, Pos, SlotsOk, FreeUnlocked;
    SetSlot(st, env, b, e');
    SetSlotOk(st, env, locked, b, e', locked - {b});
  }

  lemma ReleaseOk(st: Store, env: Env, locked: set<nat>, b: nat, e: Entry)
    requires Holds(st, env, locked, b, e) && e.refcnt < UINT32
    requires e.refcnt == 1 && !e.dirty ==> e.data == st.disk[b]
    ensures var s := BlockRelease(st, env, e.id);
      && Changed(st, env, b, e.(owner := 0, refcnt := e.refcnt - 1), s, locked - {b})
      && s.disk == st.disk && s.writes == st.writes
  {
    HeldFacts(st, env, locked, b, e);
    hide SlotAt, ListOk, FindKey, Busy, Pos, StoreOk, SlotOk;
    var e' := e.(owner := 0, refcnt := e.refcnt - 1);
    var i := FindKey(st.es, env.dev, b);
    ReleaseShape(st, env, i, e);
    hide BlockRelease;
    DropOk(st, env, locked, b, e, e');
    MoveOk(st.(es := st.es[i := e']), env, locked - {b}, i);
  }

  // ---- one iteration of write_log or install_trans ------------------------

  /** `s` differs from `st` in the slots of `a` and `b` alone; the locks on `rest` are still held. */
  ghost predicate Changed2(st: Store, env: Env, rest: set<nat>, a: nat, ea: Entry, b: nat, eb: Entry, s: Store) {
    && StoreOk(s, env, rest) && |s.es| == |st.es|
    && (forall x: nat :: SlotAt(s.es, env.dev, x) ==
         if x == a then Some(ea) else if x == b then Some(eb) else SlotAt(st.es, env.dev, x))
    && Busy(s.es) == Busy(st.es) - (if Eligible(ea) then {a} else {}) - (if Eligible(eb) then {b} else {})
  }

  lemma ChangedTwice(st: Store, env: Env, b: nat, e1: Entry, s1: Store, l1: set<nat>, e2: Entry, s2: Store, l2: set<nat>)
    requires Changed(st, env, b, e1, s1, l1) && Changed(s1, env, b, e2, s2, l2) && !Eligible(e1)
    requires b in Busy(st.es)
    ensures Changed(st, env, b, e2, s2, l2)
  {
    hide SlotAt, StoreOk, Busy;
  }

  lemma StillHolds(st: Store, env: Env, b: nat, e: Entry, s: Store, locked: set<nat>)
    requires Changed(st, env, b, e, s, locked) && b in locked
    ensures Holds(s, env, locked, b, e)
  {
    hide SlotAt, StoreOk, Busy;
  }

  /** Fill, write and unpin. */
  lemma WriteTail(st: Store, env: Env, locked: set<nat>, b: nat, eb: Entry, data: Block, unpin: bool)
    requires Holds(st, env, locked, b, eb) && eb.refcnt < UINT32 && eb.refcnt >= (if unpin then 2 else 1)
    requires b in Busy(st.es)
    ensures b < |st.disk|
    ensures var w := BlockWrite(FillBuf(st, eb.id, data), env, eb.id);
      var u := if unpin then BufUnpin(w, eb.id) else w;
      && Changed(st, env, b, eb.(data := data, dirty := true, refcnt := eb.refcnt - if unpin then 1 else 0), u, locked)
      && u.disk == st.disk[b := data] && u.writes == st.writes + [Write(b, data)]
  {
    hide SlotAt, ListOk, FindKey, Busy, StoreOk, SlotOk, BlockWrite, BufUnpin, FillBuf, Changed, Holds;
    var f, e1, e2 := FillBuf(st, eb.id, data), eb.(data := data), eb.(data := data, dirty := true);
    FillOk(st, env, locked, b, eb, data);
    var l := locked;
    assert b in l by { HeldIn(st, env, locked, b, eb); }
    StillHolds(st, env, b, e1, f, l);
    WriteOk(f, env, l, b, e1);
    var w := BlockWrite(f, env, eb.id);
    assert e1.refcnt >= 1 && !Eligible(e1) && !Eligible(e2);
    ChangedTwice(st, env, b, e1, f, l, e2, w, l);
    if unpin {
      StillHolds(f, env, b, e2, w, l);
      UnpinOk(w, env, l, b, e2);
      ChangedTwice(st, env, b, e2, w, l, e2.(refcnt := eb.refcnt - 1), BufUnpin(w, eb.id), l);
    }
  }

  lemma HeldIn(st: Store, env: Env, locked: set<nat>, b: nat, e: Entry)
    requires Holds(st, env, locked, b, e)
    ensures b in locked
  {
  }

  lemma OtherHolds(st: Store, env: Env, b: nat, e: Entry, s: Store, locked: set<nat>, a: nat, ea: Entry)
    requires Changed(st, env, b, e, s, locked) && a != b && a in locked && Slot(st, env, a) == Some(ea)
    ensures Holds(s, env, locked, a, ea)
  {
    hide SlotAt, StoreOk, Busy;
  }

  lemma ChangedBoth(st: Store, env: Env, rest: set<nat>, a: nat, ea: Entry, s1: Store, l1: set<nat>, b: nat, eb: Entry, s2: Store)
    requires Changed(st, env, a, ea, s1, l1) && Changed(s1, env, b, eb, s2, rest) && a != b
    requires a in Busy(st.es) && b in Busy(st.es)
    ensures Changed2(st, env, rest, a, ea, b, eb, s2)
  {
    hide SlotAt, StoreOk, Busy;
  }

  lemma ReleaseBoth(st: Store, env: Env, rest: set<nat>, locked: set<nat>, a: nat, ea: Entry, b: nat, eb: Entry)
    requires a != b && a !in rest && b !in rest && locked == rest + {a, b} && Holds(st, env, locked, a, ea) && Holds(st, env, locked, b, eb)
    requires ea.refcnt < UINT32 && eb.refcnt < UINT32 && eb.dirty
    requires ea.refcnt == 1 && !ea.dirty ==> ea.data == st.disk[a]
    requires a in Busy(st.es) && b in Busy(st.es)
    ensures ea.refcnt >= 1 && eb.refcnt >= 1
    ensures var s := BlockRelease(BlockRelease(st, env, ea.id), env, eb.id);
      && Changed2(st, env, rest, a, ea.(owner := 0, refcnt := ea.refcnt - 1), b,
                  eb.(owner := 0, refcnt := eb.refcnt - 1), s)
      && s.disk == st.disk && s.writes == st.writes
  {
    HeldFacts(st, env, locked, a, ea);
    HeldFacts(st, env, locked, b, eb);
    assert Slot(st, env, b) == Some(eb);
    hide SlotAt, ListOk, FindKey, Busy, StoreOk, SlotOk, BlockRelease, Pos, Changed, Changed2;
    ReleaseOk(st, env, locked, a, ea);
    var r := BlockRelease(st, env, ea.id);
    var ea' := ea.(owner := 0, refcnt := ea.refcnt - 1);
    assert locked - {a} == rest + {b};
    OtherHolds(st, env, a, ea', r, rest + {b}, b, eb);
    ReleaseOk(r, env, rest + {b}, b, eb);
    assert rest + {b} - {b} == rest;
    ChangedBoth(st, env, rest, a, ea', r, rest + {b}, b, eb.(owner := 0, refcnt := eb.refcnt - 1), BlockRelease(r, env, eb.id));
  }

  lemma ThenBoth(st: Store, env: Env, rest: set<nat>, b: nat, e: Entry, s1: Store, l: set<nat>, a: nat, ea: Entry, eb: Entry, s2: Store)
    requires Changed(st, env, b, e, s1, l) && !Eligible(e) && b in Busy(st.es)
    requires Changed2(s1, env, rest, a, ea, b, eb, s2)
    ensures Changed2(st, env, rest, a, ea, b, eb, s2)
  {
    hide SlotAt, StoreOk, Busy;
  }

  lemma BusyStays(st: Store, env: Env, b: nat, e: Entry, s: Store, locked: set<nat>)
    requires Changed(st, env, b, e, s, locked) && !Eligible(e) && b in Busy(st.es)
    ensures Busy(s.es) == Busy(st.es)
  {
    hide SlotAt, StoreOk;
  }

  lemma HeldData(st: Store, env: Env, locked: set<nat>, b: nat, e: Entry)
    requires Holds(st, env, locked, b, e)
    ensures DataOf(st, e.id) == e.data && Slot(st, env, b) == Some(e) && e.refcnt >= 1 && b < |st.disk|
  {
    HeldFacts(st, env, locked, b, e);
  }

  /** The buffer's slot after block_write and the optional buf_unpin. */
  function Written(e: Entry, data: Block, unpin: bool): Entry
    requires unpin ==> e.refcnt > 0
  {
    e.(data := data, dirty := true, refcnt := if unpin then e.refcnt - 1 else e.refcnt)
  }

  function Given(e: Entry): Entry
    requires e.refcnt > 0
  {
    e.(owner := 0, refcnt := e.refcnt - 1)
  }

  lemma CopyTailOk(st: Store, env: Env, rest: set<nat>, locked: set<nat>, a: nat, ea: Entry, b: nat, eb: Entry, unpin: bool)
    requires a != b && a !in rest && b !in rest && locked == rest + {a, b} && Holds(st, env, locked, a, ea) && Holds(st, env, locked, b, eb)
    requires 1 <= ea.refcnt < UINT32 && (if unpin then 2 else 1) <= eb.refcnt < UINT32
    requires ea.refcnt == 1 && !ea.dirty ==> a < |st.disk| && ea.data == st.disk[a]
    requires b in Busy(st.es) && a in Busy(st.es)
    ensures b < |st.disk|
    ensures var s := CopyTail(st, env, ea.id, eb.id, unpin);
      && Changed2(st, env, rest, a, Given(ea), b, Given(Written(eb, ea.data, unpin)), s)
      && s.disk == st.disk[b := ea.data] && s.writes == st.writes + [Write(b, ea.data)]
  {
    hide SlotAt, ListOk, FindKey, Busy, StoreOk, SlotOk, BlockRelease, BlockWrite, BufUnpin, FillBuf, DataOf, Pos,
      Changed, Changed2, Holds;
    HeldData(st, env, locked, a, ea);
    HeldData(st, env, locked, b, eb);
    WriteTail(st, env, locked, b, eb, ea.data, unpin);
    var w := BlockWrite(FillBuf(st, eb.id, ea.data), env, eb.id);
    var u := if unpin then BufUnpin(w, eb.id) else w;
    var e3 := Written(eb, ea.data, unpin);
    assert Changed(st, env, b, e3, u, locked);
    OtherHolds(st, env, b, e3, u, locked, a, ea);
    StillHolds(st, env, b, e3, u, locked);
    BusyStays(st, env, b, e3, u, locked);
    ReleaseBoth(u, env, rest, locked, a, ea, b, e3);
    ThenBoth(st, env, rest, b, e3, u, locked, a, Given(ea), Given(e3), CopyTail(st, env, ea.id, eb.id, unpin));
  }

  /** A block read into a buffer: what the slot says compared with before the read. */
  ghost predicate ReadIn(st: Store, env: Env, b: nat, e: Entry)
    requires b < |st.disk|
  {
    && e.data == Cont(st, env, b) && e.refcnt == Refs(st, env, b) + 1
    && (e.refcnt == 1 && !e.dirty ==> e.data == st.disk[b])
    && (Eligible(Given(e)) <==> b !in Busy(st.es))
  }

  ghost predicate BothRead(st: Store, env: Env, rest: set<nat>, a: nat, ea: Entry, b: nat, eb: Entry, s: Store)
    requires a < |st.disk| && b < |st.disk|
  {
    && Holds(s, env, rest + {a, b}, a, ea) && Holds(s, env, rest + {a, b}, b, eb)
    && ReadIn(st, env, a, ea) && ReadIn(st, env, b, eb)
    && |s.es| == |st.es| && s.disk == st.disk && s.writes == st.writes
    && Busy(s.es) == Busy(st.es) + {a} + {b}
    && (forall x: nat :: x < |st.disk| ==> Cont(s, env, x) == Cont(st, env, x))
    && (forall x: nat :: x != a && x != b && x in Busy(st.es) ==> SlotAt(s.es, env.dev, x) == SlotAt(st.es, env.dev, x))
  }

  /** A clean unreferenced block reads as the disk has it. */
  lemma CleanReadsDisk(st: Store, env: Env, locked: set<nat>, b: nat)
    requires StoreOk(st, env, locked) && b < |st.disk| && b !in Busy(st.es)
    ensures Cont(st, env, b) == st.disk[b]
  {
    BusyAt(st.es, env.dev, b);
    hide SlotAt, Busy, ListOk;
  }

  lemma ReadInOk(st: Store, env: Env, locked: set<nat>, b: nat, s: Store, id: nat)
    requires StoreOk(st, env, locked) && b < |st.disk| && b !in locked && ReadEffect(st, env, locked, b, s, id)
    ensures Slot(s, env, b).Some? && Slot(s, env, b).value.id == id && ReadIn(st, env, b, Slot(s, env, b).value)
    ensures Refs(st, env, b) + 1 < UINT32
  {
    hide SlotAt, Busy, ListOk, FreeUnlocked;
    var e := Slot(s, env, b).value;
    if e.refcnt == 1 && !e.dirty {
      NotBusy(st, env, b);
      CleanReadsDisk(st, env, locked, b);
    }
    NotBusy(st, env, b);
  }

  lemma NotBusy(st: Store, env: Env, b: nat)
    requires ListOk(st.es, env.dev)
    ensures b !in Busy(st.es) <==> Slot(st, env, b).None? || (Refs(st, env, b) == 0 && !Slot(st, env, b).value.dirty)
  {
    BusyAt(st.es, env.dev, b);
  }

  lemma BothReadFrom(st: Store, env: Env, rest: set<nat>, a: nat, s1: Store, id1: nat, b: nat, s: Store, id2: nat)
    requires StoreOk(st, env, rest) && a != b && a < |st.disk| && b < |st.disk| && a !in rest && b !in rest
    requires ReadEffect(st, env, rest, a, s1, id1) && |s1.disk| == |st.disk| && ReadEffect(s1, env, rest + {a}, b, s, id2)
    ensures Slot(s, env, a).Some? && Slot(s, env, b).Some?
    ensures Slot(s, env, a).value.id == id1 && Slot(s, env, b).value.id == id2
    ensures BothRead(st, env, rest, a, Slot(s, env, a).value, b, Slot(s, env, b).value, s)
    ensures Refs(st, env, a) + 1 < UINT32 && Refs(st, env, b) + 1 < UINT32
  {
    hide SlotAt, Busy, StoreOk, ListOk, ReadIn, Cont, Refs;
    assert rest + {a} + {b} == rest + {a, b};
    ReadInOk(st, env, rest, a, s1, id1);
    ReadInOk(s1, env, rest + {a}, b, s, id2);
    assert Slot(s, env, a) == Slot(s1, env, a);
    SecondRead(st, env, rest, a, s1, id1, b, Slot(s, env, b).value);
  }

  lemma CopyReads(st: Store, env: Env, rest: set<nat>, a: nat, b: nat)
    requires StoreOk(st, env, rest) && a != b && a < |st.disk| && b < |st.disk| && a !in rest && b !in rest
    requires |Busy(st.es) + {a} + {b}| <= |st.es|
    ensures BlockRead(st, env, a).Loaded? && |BlockRead(st, env, a).st.disk| == |st.disk|
    ensures BlockRead(BlockRead(st, env, a).st, env, b).Loaded?
    ensures var r1 := BlockRead(st, env, a); var r2 := BlockRead(r1.st, env, b); var s := r2.st;
      && Slot(s, env, a).Some? && Slot(s, env, b).Some?
      && Slot(s, env, a).value.id == r1.id && Slot(s, env, b).value.id == r2.id
      && BothRead(st, env, rest, a, Slot(s, env, a).value, b, Slot(s, env, b).value, s)
    ensures Refs(st, env, a) + 1 < UINT32 && Refs(st, env, b) + 1 < UINT32
  {
    hide SlotAt, Busy, BlockRead, ListOk, BothRead, Refs, Cont, FreeUnlocked, SlotsOk;
    SmallerFits(Busy(st.es), a, b, |st.es|);
    ReadOutcome(st, env, rest, a);
    var r1 := BlockRead(st, env, a);
    ReadOutcome(r1.st, env, rest + {a}, b);
    BothReadFrom(st, env, rest, a, r1.st, r1.id, b, BlockRead(r1.st, env, b).st, BlockRead(r1.st, env, b).id);
  }

  lemma SmallerFits(s: set<nat>, a: nat, b: nat, n: nat)
    requires |s + {a} + {b}| <= n
    ensures |s + {a}| <= n
  {
    assert s + {a} + {b} == if b in s + {a} then s + {a} else (s + {a}) + {b};
  }

  /** The first read does not change what the second finds. */
  lemma SecondRead(st: Store, env: Env, rest: set<nat>, a: nat, s: Store, id: nat, b: nat, e: Entry)
    requires StoreOk(st, env, rest) && a != b && a < |st.disk| && b < |st.disk|
    requires ReadEffect(st, env, rest, a, s, id) && ReadIn(s, env, b, e)
    ensures ReadIn(st, env, b, e) && Refs(s, env, b) == Refs(st, env, b)
  {
    hide SlotAt, Busy, ListOk, FreeUnlocked, SlotsOk;
    NotBusy(st, env, b);
    NotBusy(s, env, b);
  }

  /** One block write through the cache, the locks on `rest` being held all along: `tgt` now holds `data`, on
      disk and for every reader. */
  ghost predicate WroteAmid(st: Store, env: Env, rest: set<nat>, tgt: nat, data: Block, unpin: bool, s: Store)
    requires tgt < |st.disk|
  {
    && StoreOk(s, env, rest) && |s.es| == |st.es|
    && s.disk == st.disk[tgt := data] && s.writes == st.writes + [Write(tgt, data)]
    && Busy(s.es) == Busy(st.es) + {tgt}
    && (forall x: nat :: x < |st.disk| ==> Cont(s, env, x) == if x == tgt then data else Cont(st, env, x))
    && (forall x: nat :: x != tgt && x in Busy(st.es) ==> Refs(s, env, x) == Refs(st, env, x))
    && Refs(s, env, tgt) == Refs(st, env, tgt) - if unpin then 1 else 0
  }

  ghost predicate Wrote(st: Store, env: Env, tgt: nat, data: Block, unpin: bool, s: Store)
    requires tgt < |st.disk|
  {
    WroteAmid(st, env, {}, tgt, data, unpin, s)
  }

  /** A successful iteration: block `tgt` takes over what readers see in `src`. */
  ghost predicate Copied(st: Store, env: Env, rest: set<nat>, tgt: nat, src: nat, unpin: bool, s: Store)
    requires tgt < |st.disk| && src < |st.disk|
  {
    WroteAmid(st, env, rest, tgt, Cont(st, env, src), unpin, s)
  }

  lemma CopiedFrom(st: Store, env: Env, rest: set<nat>, src: nat, es: Entry, tgt: nat, et: Entry, s2: Store, unpin: bool, s: Store)
    requires src < |st.disk| && tgt < |st.disk| && src != tgt
    requires BothRead(st, env, rest, src, es, tgt, et, s2) && es.refcnt > 0 && et.refcnt >= (if unpin then 2 else 1)
    requires Changed2(s2, env, rest, src, Given(es), tgt, Given(Written(et, es.data, unpin)), s) && et.valid && es.valid
    requires s.disk == s2.disk[tgt := es.data] && s.writes == s2.writes + [Write(tgt, es.data)]
    ensures Copied(st, env, rest, tgt, src, unpin, s)
  {
    hide SlotAt, Busy, ListOk, FreeUnlocked, SlotsOk, StoreOk;
    forall x: nat | x < |st.disk| ensures Cont(s, env, x) == if x == tgt then es.data else Cont(st, env, x) {
      assert Cont(s2, env, x) == Cont(st, env, x);
    }
    assert Busy(s.es) == Busy(st.es) + {tgt};
  }

  lemma BothReadSwap(st: Store, env: Env, rest: set<nat>, a: nat, ea: Entry, b: nat, eb: Entry, s: Store)
    requires a < |st.disk| && b < |st.disk| && BothRead(st, env, rest, a, ea, b, eb, s)
    ensures BothRead(st, env, rest, b, eb, a, ea, s)
  {
    hide SlotAt, Busy, StoreOk, ReadIn;
    assert {a, b} == {b, a};
  }

  lemma TailCopies(st: Store, env: Env, rest: set<nat>, src: nat, es: Entry, tgt: nat, et: Entry, s2: Store, unpin: bool)
    requires src < |st.disk| && tgt < |st.disk| && src != tgt && src !in rest && tgt !in rest
    requires BothRead(st, env, rest, src, es, tgt, et, s2) && (unpin ==> Refs(st, env, tgt) >= 1)
    requires Refs(st, env, src) + 1 < UINT32 && Refs(st, env, tgt) + 1 < UINT32
    ensures Copied(st, env, rest, tgt, src, unpin, CopyTail(s2, env, es.id, et.id, unpin))
  {
    hide SlotAt, Busy, StoreOk, CopyTail, Changed2;
    HeldFacts(s2, env, rest + {src, tgt}, src, es);
    HeldFacts(s2, env, rest + {src, tgt}, tgt, et);
    hide Holds, FindKey, Pos;
    CopyTailOk(s2, env, rest, rest + {src, tgt}, src, es, tgt, et, unpin);
    CopiedFrom(st, env, rest, src, es, tgt, et, s2, unpin, CopyTail(s2, env, es.id, et.id, unpin));
  }

  /** An iteration whose two reads succeed, whatever else the commit has left locked. */
  lemma CopyAmid(st: Store, env: Env, rest: set<nat>, first: nat, second: nat, toFirst: bool, unpin: bool)
    requires StoreOk(st, env, rest) && first != second && first < |st.disk| && second < |st.disk|
    requires first !in rest && second !in rest && |Busy(st.es) + {first} + {second}| <= |st.es|
    requires unpin ==> Refs(st, env, if toFirst then first else second) >= 1
    ensures var f := CopyBlock(st, env, first, second, toFirst, unpin);
      f.Next? && Copied(st, env, rest, if toFirst then first else second, if toFirst then second else first, unpin, f.st)
  {
    hide SlotAt, Busy, StoreOk, CopyTail, BlockRead, BothRead, Copied, Refs;
    CopyReads(st, env, rest, first, second);
    var r1 := BlockRead(st, env, first);
    var s := BlockRead(r1.st, env, second).st;
    var ea, eb := Slot(s, env, first).value, Slot(s, env, second).value;
    if toFirst {
      BothReadSwap(st, env, rest, first, ea, second, eb, s);
      TailCopies(st, env, rest, second, eb, first, ea, s, unpin);
    } else {
      TailCopies(st, env, rest, first, ea, second, eb, s, unpin);
    }
  }

  lemma CopyOk(st: Store, env: Env, first: nat, second: nat, toFirst: bool, unpin: bool)
    requires StoreOk(st, env, {}) && first != second && first < |st.disk| && second < |st.disk|
    requires |Busy(st.es) + {first} + {second}| <= |st.es|
    requires unpin ==> Refs(st, env, if toFirst then first else second) >= 1
    ensures var f := CopyBlock(st, env, first, second, toFirst, unpin);
      var tgt, src := if toFirst then first else second, if toFirst then second else first;
      f.Next? && Wrote(st, env, tgt, Cont(st, env, src), unpin, f.st)
  {
    hide CopyBlock, StoreOk, Busy, SlotAt, Refs, Cont, WroteAmid;
    CopyAmid(st, env, {}, first, second, toFirst, unpin);
  }

  /** Reading a block whose lock the commit itself still holds puts it to sleep for ever. */
  lemma ReadBlocked(st: Store, env: Env, locked: set<nat>, b: nat)
    requires StoreOk(st, env, locked) && b < |st.disk| && b in locked
    ensures BlockRead(st, env, b).Blocked?
  {
    assert Slot(st, env, b).Some?;
    var i := FindKey(st.es, env.dev, b);
    var e := st.es[i];
    var e1 := e.(refcnt := Inc(e.refcnt));
    SetSlot(st, env, b, e1);
    PosOf(st.es[i := e1], i);
    hide ListOk, Busy, Pos, FindKey, Inc;
  }

  // ---- write_head ---------------------------------------------------------

  lemma HeadTail(st: Store, env: Env, locked: set<nat>, b: nat, e: Entry, data: Block)
    requires Holds(st, env, locked, b, e) && e.refcnt < UINT32 && b in Busy(st.es)
    ensures b < |st.disk| && e.refcnt > 0
    ensures var s := BlockRelease(BlockWrite(FillBuf(st, e.id, data), env, e.id), env, e.id);
      && Changed(st, env, b, Given(Written(e, data, false)), s, locked - {b})
      && s.disk == st.disk[b := data] && s.writes == st.writes + [Write(b, data)]
  {
    hide SlotAt, ListOk, FindKey, Busy, StoreOk, SlotOk, BlockRelease, BlockWrite, FillBuf, Pos, Changed, Holds;
    HeldData(st, env, locked, b, e);
    HeldIn(st, env, locked, b, e);
    WriteTail(st, env, locked, b, e, data, false);
    var w := BlockWrite(FillBuf(st, e.id, data), env, e.id);
    var e1 := Written(e, data, false);
    assert Changed(st, env, b, e1, w, locked);
    StillHolds(st, env, b, e1, w, locked);
    ReleaseOk(w, env, locked, b, e1);
    ChangedTwice(st, env, b, e1, w, locked, Given(e1), BlockRelease(w, env, e.id), locked - {b});
  }

  /** write_head when the header block can be read. */
  lemma HeadWrites(st: Store, env: Env, locked: set<nat>, blocks: seq<nat>)
    requires StoreOk(st, env, locked) && env.lay.start < |st.disk| && |blocks| <= LOGSIZE && env.lay.start !in locked
    requires |Busy(st.es) + {env.lay.start}| <= |st.es|
    ensures var f := WriteHead(st, env, blocks); var data := WithHeader(Cont(st, env, env.lay.start), blocks);
      && f.Next? && f.st.disk == st.disk[env.lay.start := data]
      && f.st.writes == st.writes + [Write(env.lay.start, data)]
      && WroteAmid(st, env, locked, env.lay.start, data, false, f.st)
  {
    var b := env.lay.start;
    hide SlotAt, Busy, StoreOk, BlockRead, ListOk, BlockRelease, BlockWrite, FillBuf, DataOf, WithHeader, Refs;
    ReadOutcome(st, env, locked, b);
    var r := BlockRead(st, env, b);
    ReadInOk(st, env, locked, b, r.st, r.id);
    var e := Slot(r.st, env, b).value;
    var data := WithHeader(Cont(st, env, b), blocks);
    assert Holds(r.st, env, locked + {b}, b, e);
    HeldData(r.st, env, locked + {b}, b, e);
    HeadTail(r.st, env, locked + {b}, b, e, data);
    var s := WriteHead(st, env, blocks).st;
    assert locked + {b} - {b} == locked;
    HeadWrote(st, env, locked, b, e, data, r.st, r.id, s);
  }

  lemma HeadOk(st: Store, env: Env, blocks: seq<nat>)
    requires StoreOk(st, env, {}) && env.lay.start < |st.disk| && |blocks| <= LOGSIZE
    requires |Busy(st.es) + {env.lay.start}| <= |st.es|
    ensures var f := WriteHead(st, env, blocks);
      f.Next? && Wrote(st, env, env.lay.start, WithHeader(Cont(st, env, env.lay.start), blocks), false, f.st)
  {
    hide StoreOk, Busy, SlotAt, Cont, WithHeader, WriteHead, WroteAmid;
    HeadWrites(st, env, {}, blocks);
  }

  lemma HeadWrote(st: Store, env: Env, locked: set<nat>, b: nat, e: Entry, data: Block, r: Store, id: nat, s: Store)
    requires b < |st.disk| && ReadEffect(st, env, locked, b, r, id) && Slot(r, env, b) == Some(e) && e.refcnt > 0
    requires Changed(r, env, b, Given(Written(e, data, false)), s, locked)
    requires s.disk == r.disk[b := data] && s.writes == r.writes + [Write(b, data)]
    ensures WroteAmid(st, env, locked, b, data, false, s)
  {
    hide SlotAt, Busy, StoreOk;
    forall x: nat | x < |st.disk| ensures Cont(s, env, x) == if x == b then data else Cont(st, env, x) {
      assert Cont(r, env, x) == Cont(st, env, x);
    }
  }
}
