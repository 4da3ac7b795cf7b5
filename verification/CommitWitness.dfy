/** A concrete state in which commit tears a transaction of 15 blocks, and then sleeps for ever: what a crash and
    recovery install is neither the old content of a home block nor the new one. */
module CommitWitness {
  import opened Wrappers
  import opened Params
  import opened Bytes
  import opened Storage
  import opened Recovery
  import opened LogCore
  import opened CacheModel
  import opened CacheMap
  import opened CommitModel
  import opened CommitFacts
  import opened CommitTheorems
  import opened CommitStarved

  const LAY: Layout := Layout(2, LOGSIZE)
  const ENV: Env := Env(1, 1, LAY)

  function Filled(v: Byte): (b: Block) { seq(BSIZE, _ => v) }

  /** The log area is empty, every home block holds twos. */
  function OldBlock(b: nat): Block { if b < LAY.start + LAY.size then Filled(0) else Filled(2) }

  function OldDisk(size: nat): Disk { seq(size, b requires 0 <= b < size => OldBlock(b)) }

  /** `n` pinned buffers holding ones, the header as the last commit left it, clean buffers for the rest. */
  function SlotEntry(n: nat, i: nat): Entry {
    if i < n then Entry(i, 1, 100 + i, 1, true, false, 0, Filled(1))
    else if i == n then Entry(i, 1, LAY.start, 0, true, true, 0, Filled(0))
    else Entry(i, 1, 200 + i, 0, false, false, 0, Filled(0))
  }

  function Cache(n: nat): seq<Entry> { seq(NBUF, i requires 0 <= i < NBUF => SlotEntry(n, i)) }

  function Logged(n: nat): (s: seq<nat>)
    ensures |s| == n
  {
    seq(n, i requires 0 <= i < n => 100 + i)
  }

  function Start(n: nat): Store { Store(Cache(n), OldDisk(1000), []) }

  lemma {:induction false} ZeroWord(s: seq<Byte>)
    requires forall i :: 0 <= i < |s| ==> s[i] == 0
    ensures FromLe(s) == 0
    decreases |s|
  {
    if s != [] {
      ZeroWord(s[1..]);
    }
  }

  lemma EmptyHeader(b: Block)
    requires forall i :: 0 <= i < 4 ==> b[i] == 0
    ensures HeaderCount(b) == 0 && HeaderBlocks(b) == []
  {
    ZeroWord(b[0..4]);
  }

  lemma CacheList(n: nat)
    requires n < NBUF
    ensures ListOk(Cache(n), 1) && FreeUnlocked(Cache(n))
  {
  }

  lemma SlotIsEntry(n: nat, b: nat)
    requires n < NBUF && SlotAt(Cache(n), 1, b).Some?
    ensures exists i :: 0 <= i < NBUF && SlotAt(Cache(n), 1, b).value == SlotEntry(n, i) && SlotEntry(n, i).blockno == b
  {
    var i := FindKey(Cache(n), 1, b);
    assert HasKey(Cache(n)[i], 1, b);
  }

  lemma StoreIsOk(n: nat)
    requires n < NBUF
    ensures StoreOk(Start(n), ENV, {})
  {
    CacheList(n);
    var st := Start(n);
    hide ListOk, FreeUnlocked, SlotAt;
    forall b: nat | SlotAt(st.es, ENV.dev, b).Some? ensures SlotOk(st.disk, ENV, {}, b, SlotAt(st.es, ENV.dev, b).value) {
      SlotIsEntry(n, b);
    }
  }

  lemma KnownSlot(n: nat, i: nat)
    requires n < NBUF && i < NBUF
    ensures Slot(Start(n), ENV, SlotEntry(n, i).blockno) == Some(SlotEntry(n, i))
  {
    CacheList(n);
    assert Cache(n)[i] == SlotEntry(n, i);
    SlotIs(Cache(n), 1, i);
  }

  lemma BusyHere(n: nat, i: nat)
    requires n < NBUF && i <= n
    ensures SlotEntry(n, i).blockno in Busy(Cache(n))
  {
    assert Cache(n)[i] == SlotEntry(n, i);
    BusyIn(Cache(n), SlotEntry(n, i).blockno);
  }

  lemma NotBusyHere(n: nat, b: nat)
    requires n < NBUF && LAY.Slot(0) <= b < LAY.Slot(n)
    ensures b !in Busy(Cache(n))
  {
    BusyIn(Cache(n), b);
  }

  lemma HeaderHere(n: nat)
    requires n < NBUF
    ensures LogOk(LAY, Start(n).disk) && HeaderBlocks(Start(n).disk[LAY.start]) == []
    ensures Cont(Start(n), ENV, LAY.start) == Start(n).disk[LAY.start]
  {
    EmptyHeader(Start(n).disk[LAY.start]);
    KnownSlot(n, n);
    hide HeaderBlocks, HeaderCount, SlotAt;
  }

  lemma LoggedHere(n: nat)
    requires 0 < n < NBUF
    ensures Loggable(LAY, Start(n).disk, Logged(n)) && LoopReady(Start(n), ENV, Logged(n))
    ensures forall i :: 0 <= i < n ==> Refs(Start(n), ENV, Logged(n)[i]) >= 1
    ensures forall i :: 0 <= i < n ==> Logged(n)[i] < |Start(n).disk| && Cont(Start(n), ENV, Logged(n)[i]) == Filled(1)
  {
    StoreIsOk(n);
    hide StoreOk, SlotAt, Busy;
    forall i | 0 <= i < n
      ensures Logged(n)[i] in Busy(Cache(n)) && Slot(Start(n), ENV, Logged(n)[i]) == Some(SlotEntry(n, i))
    {
      BusyHere(n, i);
      KnownSlot(n, i);
    }
  }

  lemma SlotsSize(n: nat, slots: set<nat>)
    requires n == 15 && slots == SlotSet(LAY, 0, n)
    ensures |slots| == n && LAY.start !in slots && forall b: nat :: b in slots ==> b < 100 && b !in Busy(Cache(n))
  {
    hide Busy;
    forall b: nat | b in slots ensures b !in Busy(Cache(n)) {
      NotBusyHere(n, b);
    }
  }

  lemma LoggedBusy(n: nat)
    requires n == 15
    ensures Elements(Logged(n)) <= Busy(Cache(n)) && LAY.start in Busy(Cache(n))
    ensures |Elements(Logged(n))| == n && forall b: nat :: b in Elements(Logged(n)) ==> b >= 100
  {
    BusyHere(n, n);
    DistinctCount(Logged(n));
    hide Busy;
    forall b: nat | b in Elements(Logged(n)) ensures b in Busy(Cache(n)) {
      var i :| 0 <= i < n && Logged(n)[i] == b;
      BusyHere(n, i);
    }
  }

  lemma TooMany(busy: set<nat>, homes: set<nat>, slots: set<nat>, start: nat, n: nat)
    requires homes <= busy && start in busy && homes !! slots && start !in homes && start !in slots && |homes| + |slots| >= n
    ensures |busy + slots| > n
  {
    ApartSizes(homes, slots, start);
    SubsetFits((homes + {start}) + slots + {start}, busy + slots, |busy + slots|);
  }

  /** With 15 blocks to log, 31 buffers are needed. */
  lemma NotEnough(n: nat)
    requires n == 15
    ensures Overfull(Start(n), ENV, Logged(n), 0) && LAY.start in Busy(Start(n).es)
  {
    hide Busy, SlotSet, LoopReady, Elements;
    var slots := SlotSet(LAY, 0, n);
    SlotsSize(n, slots);
    LoggedBusy(n);
    TooMany(Busy(Cache(n)), Elements(Logged(n)), slots, LAY.start, NBUF);
  }

  lemma IsReady(n: nat)
    requires n == 15
    ensures Ready(Start(n), ENV, Logged(n))
  {
    hide StoreOk, Cont, Busy, Refs, HeaderBlocks, HeaderCount, Elements;
    StoreIsOk(n);
    HeaderHere(n);
    LoggedHere(n);
  }

  lemma Contents(n: nat, k: nat)
    requires n == 15 && k < n
    ensures Logged(n)[k] < |Start(n).disk| && LAY.Slot(k) < |Start(n).disk|
    ensures Start(n).disk[LAY.Slot(k)] == Filled(0) && Start(n).disk[Logged(n)[k]] == Filled(2)
  {
  }

  lemma ThreeContents()
    ensures Filled(0) != Filled(1) && Filled(0) != Filled(2)
  {
    assert Filled(0)[0] == 0 && Filled(1)[0] == 1 && Filled(2)[0] == 2;
  }

  /** The transaction is torn: after write_log and the header write a crash makes the durable content of some
      logged home block zeros, where it held twos before and ones were written. */
  lemma FifteenBlocksTear(n: nat) returns (k: nat)
    requires n == 15
    ensures Ready(Start(n), ENV, Logged(n)) && Addressable(Start(n).disk, LAY, Logged(n)) && k < n
    ensures var f := LogAndHead(Start(n), ENV, Logged(n), 0);
      && f.Next? && |f.st.disk| == |Start(n).disk| && Logged(n)[k] < |f.st.disk| && LogOk(LAY, f.st.disk)
      && Effective(LAY, f.st.disk, Logged(n)[k]) == Filled(0)
      && Start(n).disk[Logged(n)[k]] == Filled(2) && Cont(Start(n), ENV, Logged(n)[k]) == Filled(1)
    ensures Filled(0) != Filled(1) && Filled(0) != Filled(2)
  {
    hide Ready, Cont, Overfull, Busy, LogAndHead, HeaderBlocks, HeaderCount, Effective, Addressable, Start, Filled, LogOk;
    IsReady(n);
    LoggedHere(n);
    NotEnough(n);
    ThreeContents();
    k := CommitTears(Start(n), ENV, Logged(n));
    Contents(n, k);
  }

  /** The commit of these 15 blocks never returns. */
  lemma FifteenBlocksStick(n: nat)
    requires n == 15
    ensures Ready(Start(n), ENV, Logged(n)) && Addressable(Start(n).disk, LAY, Logged(n))
    ensures Commit(Start(n), ENV, Logged(n)).Stuck?
  {
    hide Ready, Busy, Commit, Addressable, Start, SlotSet;
    IsReady(n);
    NotEnough(n);
    CommitSticksIff(Start(n), ENV, Logged(n));
  }
}
