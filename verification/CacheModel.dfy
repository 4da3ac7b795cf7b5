/** The buffer cache as a list, most recently used first (kernel/fs/buffer.c, kernel/fs/block.c). */
module CacheModel {
  import opened Params
  import opened Storage
  import opened LogCore

  /** One struct buf. `owner` is the pid holding its sleep lock, 0 when free. */
  datatype Entry = Entry(id: nat, dev: nat, blockno: nat, refcnt: nat, valid: bool, dirty: bool, owner: nat, data: Block)

  predicate HasKey(e: Entry, dev: nat, b: nat) { e.dev == dev && e.blockno == b }

  /** buf_get may recycle the slot. */
  predicate Eligible(e: Entry) { e.refcnt == 0 && !e.dirty }

  function Inc(n: nat): nat { (n + 1) % UINT32 }
  function Dec(n: nat): nat { (n + UINT32 - 1) % UINT32 }

  lemma Counting(n: nat)
    requires n < UINT32
    ensures n > 0 ==> Dec(n) == n - 1
    ensures n + 1 < UINT32 ==> Inc(n) == n + 1
  {
  }

  /** First slot with this key, or `|es|`. */
  function FindKey(es: seq<Entry>, dev: nat, b: nat): (i: nat)
    ensures i <= |es|
    ensures i < |es| ==> HasKey(es[i], dev, b)
    ensures forall j :: 0 <= j < i ==> !HasKey(es[j], dev, b)
  {
    if es == [] then 0 else if HasKey(es[0], dev, b) then 0 else 1 + FindKey(es[1..], dev, b)
  }

  /** Last recyclable slot, or -1. */
  function LastEligible(es: seq<Entry>): (i: int)
    ensures -1 <= i < |es|
    ensures i >= 0 ==> Eligible(es[i])
    ensures forall j :: i < j < |es| ==> !Eligible(es[j])
  {
    if es == [] then -1
    else if Eligible(es[|es| - 1]) then |es| - 1
    else LastEligible(es[..|es| - 1])
  }

  /** Position of the slot with this identity, or `|es|`. */
  function Pos(es: seq<Entry>, id: nat): (i: nat)
    ensures i <= |es|
    ensures i < |es| ==> es[i].id == id
    ensures forall j :: 0 <= j < i ==> es[j].id != id
  {
    if es == [] then 0 else if es[0].id == id then 0 else 1 + Pos(es[1..], id)
  }

  datatype Got = Got(es: seq<Entry>, id: nat) | Exhausted

  function Recycled(e: Entry, dev: nat, b: nat): Entry {
    e.(dev := dev, blockno := b, valid := false, dirty := false, refcnt := 1)
  }

  /** The locked part of buf_get: the list order never changes here. */
  function Get(es: seq<Entry>, dev: nat, b: nat): Got {
    var i := FindKey(es, dev, b);
    if i < |es| then Got(es[i := es[i].(refcnt := Inc(es[i].refcnt))], es[i].id)
    else
      var k := LastEligible(es);
      if k >= 0 then Got(es[k := Recycled(es[k], dev, b)], es[k].id) else Exhausted
  }

  function ToFront(es: seq<Entry>, i: nat): seq<Entry>
    requires i < |es|
  {
    [es[i]] + Without(es, i)
  }

  /** buf_release by `pid`: refused unless it holds the lock. */
  function Release(es: seq<Entry>, i: nat, pid: nat): seq<Entry>
    requires i < |es|
  {
    if es[i].owner == 0 || es[i].owner != pid then es
    else
      var e := es[i].(owner := 0, refcnt := Dec(es[i].refcnt));
      if e.refcnt == 0 then ToFront(es[i := e], i) else es[i := e]
  }

  function Pin(es: seq<Entry>, i: nat): seq<Entry>
    requires i < |es|
  {
    es[i := es[i].(refcnt := Inc(es[i].refcnt))]
  }

  function Unpin(es: seq<Entry>, i: nat): seq<Entry>
    requires i < |es|
  {
    es[i := es[i].(refcnt := Dec(es[i].refcnt))]
  }

  /** The cache built by buf_cache_init: each buffer is put in front of the earlier ones. */
  function InitialList(blank: Block, n: nat): (es: seq<Entry>)
    ensures |es| == n
  {
    seq(n, i requires 0 <= i < n => Entry(n - 1 - i, 0, 0, 0, false, false, 0, blank))
  }

  // ---- least recently used, over whole runs -------------------------------

  datatype CacheStep =
    | CGet(dev: nat, b: nat) | CLock(id: nat, pid: nat) | CRelease(id: nat, pid: nat) | CPin(id: nat) | CUnpin(id: nat)
    | CData(id: nat, valid: bool, dirty: bool, data: Block)

  /** `stamp[id]` is the time of the buffer's last move to the front. */
  datatype Stamped = Stamped(es: seq<Entry>, clock: nat, stamp: seq<nat>)

  function DoCacheStep(s: Stamped, step: CacheStep): Stamped {
    match step
    case CGet(dev, b) =>
      (match Get(s.es, dev, b)
       case Got(es, _) => s.(es := es)
       case Exhausted => s)
    case CRelease(id, pid) =>
      var i := Pos(s.es, id);
      if i == |s.es| || id >= |s.stamp| then s
      else
        var es := Release(s.es, i, pid);
        if s.es[i].owner != 0 && s.es[i].owner == pid && Dec(s.es[i].refcnt) == 0 then
          Stamped(es, s.clock + 1, s.stamp[id := s.clock])
        else s.(es := es)
    case CPin(id) => var i := Pos(s.es, id); if i == |s.es| then s else s.(es := Pin(s.es, i))
    case CUnpin(id) => var i := Pos(s.es, id); if i == |s.es| then s else s.(es := Unpin(s.es, i))
    case CLock(id, pid) =>
      var i := Pos(s.es, id);
      if i == |s.es| || s.es[i].owner != 0 then s else s.(es := s.es[i := s.es[i].(owner := pid)])
    case CData(id, valid, dirty, data) =>
      var i := Pos(s.es, id);
      if i == |s.es| then s else s.(es := s.es[i := s.es[i].(valid := valid, dirty := dirty, data := data)])
  }

  function RunCache(s: Stamped, steps: seq<CacheStep>): Stamped
    decreases |steps|
  {
    if steps == [] then s else RunCache(DoCacheStep(s, steps[0]), steps[1..])
  }

  function Fresh(blank: Block, n: nat): Stamped {
    Stamped(InitialList(blank, n), n, seq(n, i => i))
  }

  predicate UniqueKeys(es: seq<Entry>) {
    forall i, j :: 0 <= i < |es| && 0 <= j < |es| && i != j && es[i].dev != 0 ==>
      !HasKey(es[j], es[i].dev, es[i].blockno)
  }

  predicate UniqueIds(es: seq<Entry>) {
    forall i, j :: 0 <= i < j < |es| ==> es[i].id != es[j].id
  }

  /** The list is a permutation of all buffers, newest stamp first, and names a block at most once. */
  ghost predicate LruOk(s: Stamped, n: nat) {
    && |s.es| == n && |s.stamp| == n && UniqueIds(s.es) && UniqueKeys(s.es)
    && (forall i :: 0 <= i < n ==> s.es[i].id < n && s.stamp[s.es[i].id] < s.clock)
    && (forall i, j :: 0 <= i < j < n ==> s.stamp[s.es[i].id] > s.stamp[s.es[j].id])
  }

  predicate RealDevice(step: CacheStep) { step.CGet? ==> step.dev != 0 }

  lemma InPlaceOk(s: Stamped, i: nat, e: Entry, n: nat)
    requires LruOk(s, n) && i < n && e.id == s.es[i].id
    requires (e.dev == s.es[i].dev && e.blockno == s.es[i].blockno) || FindKey(s.es, e.dev, e.blockno) == n
    ensures LruOk(s.(es := s.es[i := e]), n)
  {
    var es' := s.es[i := e];
  }

  /** Where the entry at position `j` of ToFront(es, i) comes from. */
  function Origin(i: nat, j: nat): nat {
    if j == 0 then i else if j <= i then j - 1 else j
  }

  lemma ToFrontAt(es: seq<Entry>, i: nat)
    requires i < |es|
    ensures |ToFront(es, i)| == |es|
    ensures forall j :: 0 <= j < |es| ==> Origin(i, j) < |es| && ToFront(es, i)[j] == es[Origin(i, j)]
  {
  }

  lemma ToFrontKeys(es: seq<Entry>, i: nat)
    requires i < |es| && UniqueKeys(es) && UniqueIds(es)
    ensures UniqueKeys(ToFront(es, i)) && UniqueIds(ToFront(es, i))
  {
    ToFrontAt(es, i);
    hide ToFront;
    assert forall j, k :: 0 <= j < |es| && 0 <= k < |es| && j != k ==> Origin(i, j) != Origin(i, k);
  }

  lemma ToFrontOk(s: Stamped, i: nat, n: nat)
    requires LruOk(s, n) && i < n
    ensures LruOk(Stamped(ToFront(s.es, i), s.clock + 1, s.stamp[s.es[i].id := s.clock]), n)
  {
    ToFrontKeys(s.es, i);
    ToFrontAt(s.es, i);
    hide ToFront, UniqueKeys;
    var stamp' := s.stamp[s.es[i].id := s.clock];
    assert forall j :: 0 <= j < n && j != i ==> stamp'[s.es[j].id] == s.stamp[s.es[j].id];
  }

  lemma CacheStepOk(s: Stamped, step: CacheStep, n: nat)
    requires LruOk(s, n) && RealDevice(step)
    ensures LruOk(DoCacheStep(s, step), n)
  {
    hide LruOk;
    assert |s.es| == n && |s.stamp| == n && forall i :: 0 <= i < n ==> s.es[i].id < n by { InRangeIds(s, n); }
    match step {
      case CGet(dev, b) =>
        var i, k := FindKey(s.es, dev, b), LastEligible(s.es);
        if i < n {
          InPlaceOk(s, i, s.es[i].(refcnt := Inc(s.es[i].refcnt)), n);
        } else if k >= 0 {
          InPlaceOk(s, k, Recycled(s.es[k], dev, b), n);
        }
      case CRelease(id, pid) =>
        var i := Pos(s.es, id);
        if i < n && s.es[i].owner != 0 && s.es[i].owner == pid {
          var e := s.es[i].(owner := 0, refcnt := Dec(s.es[i].refcnt));
          InPlaceOk(s, i, e, n);
          ToFrontOk(s.(es := s.es[i := e]), i, n);
        }
      case CPin(id) => var i := Pos(s.es, id); if i < n { InPlaceOk(s, i, Pin(s.es, i)[i], n); }
      case CUnpin(id) => var i := Pos(s.es, id); if i < n { InPlaceOk(s, i, Unpin(s.es, i)[i], n); }
      case CLock(id, pid) => var i := Pos(s.es, id); if i < n { InPlaceOk(s, i, s.es[i].(owner := pid), n); }
      case CData(id, valid, dirty, data) =>
        var i := Pos(s.es, id);
        if i < n { InPlaceOk(s, i, s.es[i].(valid := valid, dirty := dirty, data := data), n); }
    }
  }

  lemma InRangeIds(s: Stamped, n: nat)
    requires LruOk(s, n)
    ensures |s.es| == n && |s.stamp| == n && forall i :: 0 <= i < n ==> s.es[i].id < n
  {
  }

  lemma {:induction false} RunCacheOk(s: Stamped, steps: seq<CacheStep>, n: nat)
    requires LruOk(s, n) && forall i :: 0 <= i < |steps| ==> RealDevice(steps[i])
    ensures LruOk(RunCache(s, steps), n)
    decreases |steps|
  {
    if steps != [] {
      CacheStepOk(s, steps[0], n);
      RunCacheOk(DoCacheStep(s, steps[0]), steps[1..], n);
    }
  }

  /** A miss takes the recyclable buffer released to zero longest ago; it fails only if there is none. */
  ghost predicate TakesOldest(s: Stamped, dev: nat, b: nat)
    requires LruOk(s, |s.es|)
  {
    var g := Get(s.es, dev, b);
    if g.Exhausted? then forall i :: 0 <= i < |s.es| ==> !Eligible(s.es[i])
    else
      var k := Pos(s.es, g.id);
      && k < |s.es| && Eligible(s.es[k])
      && g.es == s.es[k := Recycled(s.es[k], dev, b)]
      && forall i :: 0 <= i < |s.es| && Eligible(s.es[i]) ==> s.stamp[g.id] <= s.stamp[s.es[i].id]
  }

  /** In every run the list stays a permutation of the buffers, ordered by last release to zero, with each
      (dev, blockno) at most once, and a miss recycles the oldest recyclable buffer. */
  lemma MissRecyclesOldest(blank: Block, steps: seq<CacheStep>, n: nat, dev: nat, b: nat)
    requires (forall i :: 0 <= i < |steps| ==> RealDevice(steps[i])) && dev != 0
    ensures var s := RunCache(Fresh(blank, n), steps);
      LruOk(s, n) && (FindKey(s.es, dev, b) == n ==> TakesOldest(s, dev, b))
  {
    RunCacheOk(Fresh(blank, n), steps, n);
    var s := RunCache(Fresh(blank, n), steps);
    var k := LastEligible(s.es);
    if k >= 0 {
      PosOf(s.es, k);
    }
  }

  lemma PosOf(es: seq<Entry>, k: nat)
    requires UniqueIds(es) && k < |es|
    ensures Pos(es, es[k].id) == k
  {
  }
}
