/** From the first block_read of an operation to the end of its commit, over the real cache: what log_write's pin is for. */
module CommitGroup {
  import opened Wrappers
  import opened Params
  import opened Storage
  import opened Recovery
  import opened LogCore
  import opened CacheModel
  import opened CacheMap
  import opened CommitModel
  import opened CommitFacts
  import opened CommitTheorems
  import opened CommitDurable

  /** The group after log_write of block `b`. */
  function Absorbed(lay: Layout, lh: seq<nat>, b: nat): seq<nat> {
    LogWrite(Log(lh, 1, false), lay.size, b).lh
  }

  lemma AbsorbedIn(lay: Layout, l: Log, b: nat)
    requires l.outstanding >= 1
    ensures LogWrite(l, lay.size, b).lh == Absorbed(lay, l.lh, b)
  {
  }

  /** How an operation changes a block: block_read, overwrite, log_write, block_release. */
  function LogUpdate(st: Store, env: Env, lh: seq<nat>, b: nat, data: Block): Flow
    requires b < |st.disk|
  {
    match BlockRead(st, env, b)
    case Blocked(s) => Stuck(s)
    case Null => Next(st)
    case Loaded(s, id) =>
      var f := FillBuf(s, id, data);
      var p := if |Absorbed(env.lay, lh, b)| > |lh| then BufPin(f, id) else f;
      Next(BlockRelease(p, env, id))
  }

  /** Nothing but the pins of the group `lh` is referenced, and blocks outside it read as the disk has them. */
  ghost predicate Building(st: Store, env: Env, lh: seq<nat>) {
    && Quiet(st, env) && Loggable(env.lay, st.disk, lh)
    && (forall i :: 0 <= i < |lh| ==> lh[i] in Busy(st.es))
    && forall x: nat :: Home(env.lay, st.disk, x) ==>
         && Refs(st, env, x) == (if x in lh then 1 else 0)
         && (x !in lh ==> Cont(st, env, x) == st.disk[x])
  }

  // ---- one update ---------------------------------------------------------

  lemma PinOk(st: Store, env: Env, locked: set<nat>, b: nat, e: Entry)
    requires Holds(st, env, locked, b, e) && e.refcnt + 1 < UINT32
    ensures var s := BufPin(st, e.id);
      Changed(st, env, b, e.(refcnt := e.refcnt + 1), s, locked) && s.disk == st.disk && s.writes == st.writes
  {
    hide Dec, Inc, SlotAt, ListOk, FindKey, Busy, Pos, SlotsOk, FreeUnlocked, SlotOk, Changed, Holds;
    HeldFacts(st, env, locked, b, e);
    ChangeHeld(st, env, locked, b, e, e.(refcnt := e.refcnt + 1));
    Counting(e.refcnt);
  }

  /** The buffer of block `b`, held: overwrite it, pin it if asked, and give it back. */
  lemma HeldUpdate(s: Store, env: Env, b: nat, e: Entry, data: Block, pin: bool)
    requires Holds(s, env, {b}, b, e) && b in Busy(s.es) && e.refcnt == if pin then 1 else 2
    ensures var f := FillBuf(s, e.id, data);
      var r := BlockRelease(if pin then BufPin(f, e.id) else f, env, e.id);
      && Changed(s, env, b, e.(data := data, refcnt := 1, owner := 0), r, {})
      && r.disk == s.disk && r.writes == s.writes
  {
    hide SlotAt, ListOk, FindKey, Busy, StoreOk, SlotOk, BlockRelease, FillBuf, BufPin, Changed, Holds, Pos;
    var f, e1 := FillBuf(s, e.id, data), e.(data := data);
    FillOk(s, env, {b}, b, e, data);
    StillHolds(s, env, b, e1, f, {b});
    var p, e2 := f, e1;
    if pin {
      p, e2 := BufPin(f, e.id), e1.(refcnt := 2);
      PinOk(f, env, {b}, b, e1);
      StillHolds(f, env, b, e2, p, {b});
      ChangedTwice(s, env, b, e1, f, {b}, e2, p, {b});
    }
    assert Changed(s, env, b, e2, p, {b}) && e2.refcnt == 2;
    ReleaseOk(p, env, {b}, b, e2);
    assert {b} - {b} == {};
    ChangedTwice(s, env, b, e2, p, {b}, e2.(owner := 0, refcnt := 1), BlockRelease(p, env, e.id), {});
  }

  /** What an update leaves: the block holds the data and one reference, everything else is as it was. */
  ghost predicate Updated1(st: Store, env: Env, b: nat, data: Block, s: Store)
    requires b < |st.disk|
  {
    && StoreOk(s, env, {}) && |s.es| == |st.es| && s.disk == st.disk && s.writes == st.writes
    && Busy(s.es) == Busy(st.es) + {b}
    && (forall x: nat :: x < |st.disk| ==> Cont(s, env, x) == if x == b then data else Cont(st, env, x))
    && (forall x: nat :: x < |st.disk| && x != b ==> Refs(s, env, x) == Refs(st, env, x))
    && Refs(s, env, b) == 1
  }

  lemma OthersRefs(st: Store, env: Env, b: nat, s: Store, id: nat, x: nat)
    requires StoreOk(st, env, {}) && b < |st.disk| && ReadEffect(st, env, {}, b, s, id) && x != b
    ensures Refs(s, env, x) == Refs(st, env, x)
  {
    NotBusy(st, env, x);
    NotBusy(s, env, x);
    hide SlotAt, Busy, ListOk, FreeUnlocked, SlotsOk;
  }

  lemma UpdatedFrom(st: Store, env: Env, b: nat, s: Store, id: nat, e: Entry, data: Block, r: Store)
    requires StoreOk(st, env, {}) && b < |st.disk| && ReadEffect(st, env, {}, b, s, id) && e.valid && e.refcnt == 1
    requires e.data == data && Changed(s, env, b, e, r, {}) && r.disk == s.disk && r.writes == s.writes
    ensures Updated1(st, env, b, data, r)
  {
    hide SlotAt, Busy, StoreOk;
    forall x: nat | x < |st.disk| && x != b ensures Refs(r, env, x) == Refs(st, env, x) {
      OthersRefs(st, env, b, s, id, x);
    }
    forall x: nat | x < |st.disk| ensures Cont(r, env, x) == if x == b then data else Cont(st, env, x) {
      assert Cont(s, env, x) == Cont(st, env, x);
    }
    assert Busy(s.es) + {b} == Busy(st.es) + {b};
  }

  lemma UpdateDone(st: Store, env: Env, lh: seq<nat>, b: nat, data: Block)
    requires StoreOk(st, env, {}) && b < |st.disk| && |Busy(st.es) + {b}| <= |st.es|
    requires Refs(st, env, b) == if |Absorbed(env.lay, lh, b)| > |lh| then 0 else 1
    ensures var f := LogUpdate(st, env, lh, b, data); f.Next? && Updated1(st, env, b, data, f.st)
  {
    hide SlotAt, Busy, StoreOk, BlockRead, ListOk, BlockRelease, FillBuf, BufPin, Refs, Cont, Absorbed, Changed;
    ReadOutcome(st, env, {}, b);
    var r := BlockRead(st, env, b);
    ReadInOk(st, env, {}, b, r.st, r.id);
    var e := Slot(r.st, env, b).value;
    var pin := |Absorbed(env.lay, lh, b)| > |lh|;
    assert {} + {b} == {b};
    assert Holds(r.st, env, {b}, b, e) && b in Busy(r.st.es);
    HeldUpdate(r.st, env, b, e, data, pin);
    UpdatedFrom(st, env, b, r.st, r.id, e.(data := data, refcnt := 1, owner := 0), data, LogUpdate(st, env, lh, b, data).st);
  }

  lemma AbsorbedIs(lay: Layout, d: Disk, lh: seq<nat>, b: nat)
    requires Loggable(lay, d, lh) && Home(lay, d, b) && (b in lh || |lh| < lay.Capacity())
    ensures Absorbed(lay, lh, b) == (if b in lh then lh else lh + [b]) && Loggable(lay, d, Absorbed(lay, lh, b))
  {
  }

  /** log_write keeps the group pinned, the new block included. */
  lemma UpdateBuilds(st: Store, env: Env, lh: seq<nat>, b: nat, data: Block)
    requires Building(st, env, lh) && Home(env.lay, st.disk, b) && (b in lh || |lh| < env.lay.Capacity())
    requires |Busy(st.es) + {b}| <= |st.es|
    ensures var f := LogUpdate(st, env, lh, b, data);
      f.Next? && Updated1(st, env, b, data, f.st) && Building(f.st, env, Absorbed(env.lay, lh, b))
  {
    hide SlotAt, Busy, StoreOk, Cont, Refs, HeaderBlocks, HeaderCount, LogUpdate, Absorbed;
    AbsorbedIs(env.lay, st.disk, lh, b);
    UpdateDone(st, env, lh, b, data);
  }

  // ---- a whole operation --------------------------------------------------

  function LogUpdates(st: Store, env: Env, lh: seq<nat>, ws: seq<Write>): Flow
    requires AllHome(env.lay, st.disk, ws)
    decreases |ws|
  {
    if ws == [] then Next(st)
    else
      var f := LogUpdate(st, env, lh, ws[0].block, ws[0].data);
      if f.Next? && |f.st.disk| == |st.disk| then LogUpdates(f.st, env, Absorbed(env.lay, lh, ws[0].block), ws[1..]) else f
  }

  function GroupOf(lay: Layout, lh: seq<nat>, ws: seq<Write>): seq<nat>
    decreases |ws|
  {
    if ws == [] then lh else GroupOf(lay, Absorbed(lay, lh, ws[0].block), ws[1..])
  }

  /** The updates went through: readers see the last of them, the disk has none of them yet. */
  ghost predicate AllUpdated(st: Store, env: Env, ws: seq<Write>, s: Store) {
    && |s.es| == |st.es| && s.disk == st.disk && s.writes == st.writes && Busy(s.es) == Busy(st.es) + BlocksOf(ws)
    && forall x: nat :: x < |st.disk| ==> Cont(s, env, x) == LastData(ws, x, Cont(st, env, x))
  }

  lemma NoneUpdated(st: Store, env: Env)
    ensures AllUpdated(st, env, [], st)
  {
    hide Busy, Cont;
  }

  lemma UpdatedThen(st: Store, env: Env, ws: seq<Write>, f: Store, s: Store)
    requires ws != [] && ws[0].block < |st.disk| && Updated1(st, env, ws[0].block, ws[0].data, f)
    requires AllUpdated(f, env, ws[1..], s)
    ensures AllUpdated(st, env, ws, s)
  {
    hide Busy, Cont, Refs, StoreOk, BlocksOf;
    BlocksNext(ws);
  }

  lemma GroupWithin(lay: Layout, d: Disk, lh: seq<nat>, ws: seq<Write>)
    requires Loggable(lay, d, lh) && AllHome(lay, d, ws) && |Elements(lh) + BlocksOf(ws)| <= lay.Capacity()
    ensures ws != [] ==> ws[0].block in lh || |lh| < lay.Capacity()
    ensures ws != [] ==> AllHome(lay, d, ws[1..]) && Elements(Absorbed(lay, lh, ws[0].block)) + BlocksOf(ws[1..]) == Elements(lh) + BlocksOf(ws)
    ensures ws != [] ==> Loggable(lay, d, Absorbed(lay, lh, ws[0].block))
  {
    DistinctCount(lh);
    if ws != [] {
      var b := ws[0].block;
      BlocksNext(ws);
      if b !in lh {
        assert b !in Elements(lh) && b in BlocksOf(ws);
        OneFits(Elements(lh), b, BlocksOf(ws));
      }
      AbsorbedIs(lay, d, lh, b);
      hide Elements, BlocksOf, Absorbed;
      ElementsGrow(lh, b);
      assert AllHome(lay, d, ws[1..]);
    }
  }

  lemma OneFits(a: set<nat>, b: nat, c: set<nat>)
    requires b !in a && b in c
    ensures |a| < |a + c|
  {
    SubsetFits(a + {b}, a + c, |a + c|);
  }

  lemma ElementsGrow(lh: seq<nat>, b: nat)
    ensures Elements(lh + [b]) == Elements(lh) + {b}
    ensures b in lh ==> Elements(lh) + {b} == Elements(lh)
  {
    assert (lh + [b])[..|lh|] == lh;
  }

  lemma BuildingLoggable(st: Store, env: Env, lh: seq<nat>)
    requires Building(st, env, lh)
    ensures Loggable(env.lay, st.disk, lh)
  {
    hide Quiet, Busy, Cont, Refs, Loggable;
  }

  lemma UpdatesTurn(st: Store, env: Env, lh: seq<nat>, ws: seq<Write>)
    requires AllHome(env.lay, st.disk, ws) && ws != []
    ensures Home(env.lay, st.disk, ws[0].block) && AllHome(env.lay, st.disk, ws[1..])
    ensures GroupOf(env.lay, lh, ws) == GroupOf(env.lay, Absorbed(env.lay, lh, ws[0].block), ws[1..])
    ensures var f := LogUpdate(st, env, lh, ws[0].block, ws[0].data);
      f.Next? && f.st.disk == st.disk ==>
        LogUpdates(st, env, lh, ws) == LogUpdates(f.st, env, Absorbed(env.lay, lh, ws[0].block), ws[1..])
  {
    hide LogUpdate, Absorbed, Home;
  }

  lemma UpdatesNone(st: Store, env: Env, lh: seq<nat>, ws: seq<Write>)
    requires ws == []
    ensures LogUpdates(st, env, lh, ws) == Next(st) && GroupOf(env.lay, lh, ws) == lh
  {
  }

  lemma {:induction false} UpdatesBuild(st: Store, env: Env, lh: seq<nat>, ws: seq<Write>)
    requires Building(st, env, lh) && AllHome(env.lay, st.disk, ws)
    requires |Elements(lh) + BlocksOf(ws)| <= env.lay.Capacity() && |Busy(st.es) + BlocksOf(ws)| <= |st.es|
    ensures var f := LogUpdates(st, env, lh, ws);
      f.Next? && AllUpdated(st, env, ws, f.st) && Building(f.st, env, GroupOf(env.lay, lh, ws))
    ensures Elements(GroupOf(env.lay, lh, ws)) == Elements(lh) + BlocksOf(ws)
    decreases |ws|
  {
    hide Busy, Building, BlocksOf, LogUpdate, LogUpdates, GroupOf, Absorbed, AllUpdated, Updated1, Elements, AllHome, Home, Loggable;
    BuildingLoggable(st, env, lh);
    if ws == [] {
      UpdatesNone(st, env, lh, ws);
      NoneUpdated(st, env);
      NoBlocks(lh, ws);
    } else {
      var b, rest := ws[0].block, ws[1..];
      GroupWithin(env.lay, st.disk, lh, ws);
      UpdatesTurn(st, env, lh, ws);
      BlocksNext(ws);
      SubsetFits(Busy(st.es) + {b}, Busy(st.es) + BlocksOf(ws), |st.es|);
      UpdateBuilds(st, env, lh, b, ws[0].data);
      HomeInDisk(env.lay, st.disk, b);
      var f := LogUpdate(st, env, lh, b, ws[0].data);
      UpdatedFacts(st, env, b, ws[0].data, f.st);
      assert Busy(f.st.es) + BlocksOf(rest) == Busy(st.es) + BlocksOf(ws);
      UpdatesBuild(f.st, env, Absorbed(env.lay, lh, b), rest);
      UpdatedThen(st, env, ws, f.st, LogUpdates(f.st, env, Absorbed(env.lay, lh, b), rest).st);
    }
  }

  lemma HomeInDisk(lay: Layout, d: Disk, b: nat)
    requires Home(lay, d, b)
    ensures b < |d|
  {
  }

  lemma UpdatedFacts(st: Store, env: Env, b: nat, data: Block, s: Store)
    requires b < |st.disk| && Updated1(st, env, b, data, s)
    ensures s.disk == st.disk && |s.es| == |st.es| && Busy(s.es) == Busy(st.es) + {b}
  {
  }

  lemma NoBlocks(lh: seq<nat>, ws: seq<Write>)
    requires ws == []
    ensures Elements(lh) == Elements(lh) + BlocksOf(ws)
  {
  }

  // ---- its commit ---------------------------------------------------------

  lemma BuildingIsReady(st: Store, env: Env, lh: seq<nat>)
    requires Building(st, env, lh) && lh != []
    ensures Ready(st, env, lh)
  {
    hide StoreOk, Busy, Cont, Refs, HeaderBlocks, LogOk, Quiet;
    forall i | 0 <= i < |lh| ensures Refs(st, env, lh[i]) >= 1 {
      assert Home(env.lay, st.disk, lh[i]);
    }
  }

  /** The disk after a completed commit. */
  lemma DiskAfter(st: Store, env: Env, lh: seq<nat>)
    requires Ready(st, env, lh) && Room(st, env, lh)
    ensures Addressable(st.disk, env.lay, lh) && |Commit(st, env, lh).st.disk| == |st.disk|
    ensures forall b: nat :: Home(env.lay, st.disk, b) ==> Commit(st, env, lh).st.disk[b] == Updated(st, env, lh, b)
  {
    hide Ready, Room, Commit, StoreOk, Busy, Cont, Refs, Updated, CommitWrites, Datas, WithHeader, HeaderBlocks, After;
    RoomyCommitCompletes(st, env, lh);
    CommitJournaled(st, env, lh);
    var datas := Datas(st, env, lh);
    var ws := Commit(st, env, lh).st.writes[|st.writes|..];
    assert ws == CommitWrites(env.lay, st.disk, lh, datas) && ws[..|ws|] == ws;
    CommitPrefix(env.lay, st.disk, lh, datas, 2 * |lh| + 2);
    forall b: nat | Home(env.lay, st.disk, b) ensures Commit(st, env, lh).st.disk[b] == Updated(st, env, lh, b) {
      AfterIsUpdated(st, env, lh, b);
    }
  }

  lemma RefsAfter(st: Store, env: Env, lh: seq<nat>, t: Store, x: nat)
    requires Building(st, env, lh) && Settled(st, env, lh, t) && Home(env.lay, st.disk, x)
    ensures Refs(t, env, x) == 0
  {
    if x !in Busy(st.es) {
      NotBusy(t, env, x);
    }
    hide Busy, Cont, HeaderBlocks, LogOk, SlotAt;
  }

  lemma SettledParts(st: Store, env: Env, lh: seq<nat>, t: Store)
    requires Settled(st, env, lh, t)
    ensures |t.disk| == |st.disk| && Quiet(t, env)
    ensures forall x: nat :: x < |st.disk| && !env.lay.InLog(x) ==> Cont(t, env, x) == Cont(st, env, x)
  {
    hide Busy, Cont, Refs, Quiet;
  }

  lemma BuildingParts(st: Store, env: Env, lh: seq<nat>, x: nat)
    requires Building(st, env, lh) && Home(env.lay, st.disk, x)
    ensures Updated(st, env, lh, x) == Cont(st, env, x) && Fits(env.lay, st.disk)
  {
    hide Busy, Cont, Refs, HeaderBlocks, StoreOk;
  }

  /** The commit drops the pins log_write took and brings the disk to what readers see; then nothing is referenced. */
  lemma CommitEnds(st: Store, env: Env, lh: seq<nat>)
    requires Building(st, env, lh) && lh != [] && Room(st, env, lh)
    ensures Addressable(st.disk, env.lay, lh)
    ensures var f := Commit(st, env, lh);
      && f.Next? && |f.st.disk| == |st.disk| && Building(f.st, env, [])
      && forall x: nat :: Home(env.lay, st.disk, x) ==> f.st.disk[x] == Cont(f.st, env, x) == Cont(st, env, x)
  {
    hide Room, Commit, StoreOk, Busy, Cont, Refs, Quiet, Settled, Ready, Updated, Building, Addressable;
    BuildingIsReady(st, env, lh);
    CommitSettles(st, env, lh);
    DiskAfter(st, env, lh);
    var t := Commit(st, env, lh).st;
    SettledParts(st, env, lh, t);
    forall x: nat | Home(env.lay, st.disk, x)
      ensures t.disk[x] == Cont(t, env, x) == Cont(st, env, x) && Refs(t, env, x) == 0 && Fits(env.lay, st.disk)
    {
      BuildingParts(st, env, lh, x);
      RefsAfter(st, env, lh, t, x);
    }
    NothingPending(st, env, lh, t);
  }

  lemma NothingPending(st: Store, env: Env, lh: seq<nat>, t: Store)
    requires Building(st, env, lh) && Quiet(t, env) && |t.disk| == |st.disk|
    requires forall x: nat :: Home(env.lay, st.disk, x) ==> Cont(t, env, x) == t.disk[x] && Refs(t, env, x) == 0
    ensures Building(t, env, [])
  {
    hide Busy, Cont, Refs, HeaderBlocks, StoreOk;
  }

  /** Room for the operation's blocks, a buffer per slot, and the header. */
  ghost predicate RoomFor(st: Store, env: Env, ws: seq<Write>) {
    |Busy(st.es) + BlocksOf(ws) + SlotSet(env.lay, 0, |BlocksOf(ws)|) + {env.lay.start}| <= |st.es|
  }

  lemma RoomLater(st: Store, env: Env, ws: seq<Write>, s: Store, lh: seq<nat>)
    requires RoomFor(st, env, ws) && |s.es| == |st.es| && Busy(s.es) == Busy(st.es) + BlocksOf(ws) && Distinct(lh)
    requires Elements(lh) == BlocksOf(ws)
    ensures Room(s, env, lh) && |lh| == |BlocksOf(ws)| && |Busy(st.es) + BlocksOf(ws)| <= |st.es|
    ensures ws != [] ==> lh != []
  {
    DistinctCount(lh);
    hide Busy, SlotSet, Elements;
    SubsetFits(Busy(st.es) + BlocksOf(ws),
               Busy(st.es) + BlocksOf(ws) + SlotSet(env.lay, 0, |BlocksOf(ws)|) + {env.lay.start}, |st.es|);
    if ws != [] {
      BlocksNext(ws);
      assert ws[0].block in BlocksOf(ws);
    }
  }

  lemma EmptyGroup(env: Env, ws: seq<Write>)
    ensures Elements([]) + BlocksOf(ws) == BlocksOf(ws)
  {
  }

  /** The updates of one operation as commit finds them. */
  lemma OperationReady(st: Store, env: Env, ws: seq<Write>)
    requires Building(st, env, []) && AllHome(env.lay, st.disk, ws) && ws != []
    requires |BlocksOf(ws)| <= env.lay.Capacity() && RoomFor(st, env, ws)
    ensures var f := LogUpdates(st, env, [], ws); var lh := GroupOf(env.lay, [], ws);
      && f.Next? && AllUpdated(st, env, ws, f.st) && Building(f.st, env, lh)
      && lh != [] && Room(f.st, env, lh) && |lh| == |BlocksOf(ws)| && Elements(lh) == BlocksOf(ws)
  {
    hide Busy, Building, LogUpdates, GroupOf, AllHome, Elements, Room, SlotSet, BlocksOf;
    EmptyGroup(env, ws);
    FitsAlone(st, env, ws);
    UpdatesBuild(st, env, [], ws);
    var s, lh := LogUpdates(st, env, [], ws).st, GroupOf(env.lay, [], ws);
    BuildingLoggable(s, env, lh);
    RoomLater(st, env, ws, s, lh);
  }

  lemma FitsAlone(st: Store, env: Env, ws: seq<Write>)
    requires RoomFor(st, env, ws)
    ensures |Busy(st.es) + BlocksOf(ws)| <= |st.es|
  {
    hide Busy, SlotSet, BlocksOf;
    SubsetFits(Busy(st.es) + BlocksOf(ws),
               Busy(st.es) + BlocksOf(ws) + SlotSet(env.lay, 0, |BlocksOf(ws)|) + {env.lay.start}, |st.es|);
  }

  /** One whole transaction over the real cache, when its blocks, its slots and the header find buffers: block_read,
      overwrite, log_write and block_release of each block, then commit. Nothing sleeps for ever; the disk gets the
      last data of each block and nothing else, and the cache is again as an operation can start from. Stopped after
      any of its block writes and recovered, the home blocks are all old or all new. */
  lemma WholeTransaction(st: Store, env: Env, ws: seq<Write>, k: nat, cuts: seq<nat>)
    requires Building(st, env, []) && AllHome(env.lay, st.disk, ws) && ws != []
    requires |BlocksOf(ws)| <= env.lay.Capacity() && RoomFor(st, env, ws)
    ensures var lh := GroupOf(env.lay, [], ws); var u := LogUpdates(st, env, [], ws);
      && u.Next? && u.st.disk == st.disk && Addressable(st.disk, env.lay, lh)
      && var f := Commit(u.st, env, lh);
         && f.Next? && |f.st.disk| == |st.disk| && Building(f.st, env, [])
         && (forall b: nat :: Home(env.lay, st.disk, b) ==>
               f.st.disk[b] == Cont(f.st, env, b) == LastData(ws, b, st.disk[b]))
         && Journaled(u.st, f.st)
         && var ops := f.st.writes[|u.st.writes|..];
            (k <= |ops| ==>
               && InRange(st.disk, ops[..k]) && LogOk(env.lay, Perform(st.disk, ops[..k]))
               && var r := Recover(env.lay, Attempts(env.lay, Perform(st.disk, ops[..k]), cuts));
                  && |r| == |st.disk|
                  && forall b: nat :: Home(env.lay, st.disk, b) ==>
                       r[b] == if k <= |lh| then st.disk[b] else LastData(ws, b, st.disk[b]))
  {
    hide Busy, Building, LogUpdates, GroupOf, AllHome, Elements, Room, RoomFor, SlotSet, BlocksOf, Commit, Cont, Ready,
      Recover, Attempts, LogOk, LastData, Perform, Addressable, Updated, Journaled;
    OperationReady(st, env, ws);
    var s, lh := LogUpdates(st, env, [], ws).st, GroupOf(env.lay, [], ws);
    CommitEnds(s, env, lh);
    BuildingIsReady(s, env, lh);
    CommitIsCrashAtomic(s, env, lh, k, cuts);
    forall b: nat | Home(env.lay, st.disk, b)
      ensures Updated(s, env, lh, b) == Cont(s, env, b) == LastData(ws, b, st.disk[b])
    {
      BuildingParts(s, env, lh, b);
      StartsFromDisk(st, env, b);
    }
  }

  lemma StartsFromDisk(st: Store, env: Env, b: nat)
    requires Building(st, env, []) && Home(env.lay, st.disk, b)
    ensures Cont(st, env, b) == st.disk[b]
  {
    hide Busy, Cont, Refs, HeaderBlocks, StoreOk, Quiet;
  }
}
