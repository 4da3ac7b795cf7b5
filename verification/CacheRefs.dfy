/** What the reference count of a buffer counts, over every run of the cache, in 32-bit arithmetic. */
module CacheRefs {
  import opened Params
  import opened Storage
  import opened CacheModel

  /** The cache and, as history, for each buffer the references taken by buf_get and buf_pin less those given
      back by buf_release and buf_unpin. buf_unpin checks nothing, so the difference can be negative. */
  datatype Ledger = Ledger(s: Stamped, net: seq<int>)

  function Add(net: seq<int>, id: nat, k: int): seq<int> {
    if id < |net| then net[id := net[id] + k] else net
  }

  function NetAfter(s: Stamped, net: seq<int>, step: CacheStep): seq<int> {
    match step
    case CGet(dev, b) => (match Get(s.es, dev, b) case Got(_, id) => Add(net, id, 1) case Exhausted => net)
    case CPin(id) => if Pos(s.es, id) < |s.es| then Add(net, id, 1) else net
    case CUnpin(id) => if Pos(s.es, id) < |s.es| then Add(net, id, -1) else net
    case CRelease(id, pid) =>
      var i := Pos(s.es, id);
      if i < |s.es| && s.es[i].owner == pid && pid != 0 then Add(net, id, -1) else net
    case CLock(_, _) => net
    case CData(_, _, _, _) => net
  }

  function DoLedger(l: Ledger, step: CacheStep): Ledger {
    Ledger(DoCacheStep(l.s, step), NetAfter(l.s, l.net, step))
  }

  function RunLedger(l: Ledger, steps: seq<CacheStep>): Ledger
    decreases |steps|
  {
    if steps == [] then l else RunLedger(DoLedger(l, steps[0]), steps[1..])
  }

  lemma {:induction false} LedgerRuns(l: Ledger, steps: seq<CacheStep>)
    ensures RunLedger(l, steps).s == RunCache(l.s, steps)
    decreases |steps|
  {
    if steps != [] {
      LedgerRuns(DoLedger(l, steps[0]), steps[1..]);
    }
  }

  ghost predicate Counts(es: seq<Entry>, net: seq<int>) {
    forall i :: 0 <= i < |es| ==> es[i].id < |net| && es[i].refcnt == net[es[i].id] % UINT32
  }

  ghost predicate LedgerOk(l: Ledger, n: nat) { LruOk(l.s, n) && |l.net| == n && Counts(l.s.es, l.net) }

  lemma Up(n: int)
    ensures Inc(n % UINT32) == (n + 1) % UINT32 && Dec(n % UINT32) == (n - 1) % UINT32
  {
    var q, r := n / UINT32, n % UINT32;
    assert n == q * UINT32 + r;
    Wrapped(q, r + 1);
    Wrapped(q, r - 1);
    Wrapped(1, r - 1);
  }

  lemma Wrapped(q: int, r: int)
    ensures (q * UINT32 + r) % UINT32 == r % UINT32
  {
  }

  /** Buffer `i` of the list has its count and its line in the ledger moved by the same amount. */
  lemma CountMoves(es: seq<Entry>, net: seq<int>, i: nat, e: Entry, k: int)
    requires UniqueIds(es) && Counts(es, net) && i < |es| && e.id == es[i].id
    requires e.refcnt == (net[e.id] + k) % UINT32
    ensures Counts(es[i := e], Add(net, e.id, k))
  {
    var es' := es[i := e];
    forall j | 0 <= j < |es'| ensures es'[j].id < |net| && es'[j].refcnt == Add(net, e.id, k)[es'[j].id] % UINT32 {
      assert j < i ==> es[j].id != es[i].id;
      assert j > i ==> es[i].id != es[j].id;
    }
  }

  lemma CountMovesToFront(es: seq<Entry>, net: seq<int>, i: nat)
    requires Counts(es, net) && i < |es|
    ensures Counts(ToFront(es, i), net)
  {
    ToFrontAt(es, i);
    hide ToFront;
  }

  lemma CountSame(es: seq<Entry>, net: seq<int>, i: nat, e: Entry)
    requires Counts(es, net) && i < |es| && e.id == es[i].id && e.refcnt == es[i].refcnt
    ensures Counts(es[i := e], net)
  {
  }

  lemma GetCounts(s: Stamped, net: seq<int>, dev: nat, b: nat)
    requires UniqueIds(s.es) && Counts(s.es, net)
    ensures Counts(DoCacheStep(s, CGet(dev, b)).es, NetAfter(s, net, CGet(dev, b)))
  {
    hide UniqueIds, Counts;
    var i, k := FindKey(s.es, dev, b), LastEligible(s.es);
    if i < |s.es| {
      CountAt(s.es, net, i);
      Up(net[s.es[i].id]);
      hide Inc, Dec;
      CountMoves(s.es, net, i, s.es[i].(refcnt := Inc(s.es[i].refcnt)), 1);
    } else if k >= 0 {
      CountAt(s.es, net, k);
      Up(net[s.es[k].id]);
      CountMoves(s.es, net, k, Recycled(s.es[k], dev, b), 1);
    }
  }

  lemma CountAt(es: seq<Entry>, net: seq<int>, i: nat)
    requires Counts(es, net) && i < |es|
    ensures es[i].id < |net| && es[i].refcnt == net[es[i].id] % UINT32
  {
  }

  lemma StepCounts(l: Ledger, step: CacheStep, n: nat)
    requires LedgerOk(l, n) && RealDevice(step)
    ensures LedgerOk(DoLedger(l, step), n)
  {
    CacheStepOk(l.s, step, n);
    var s, net := l.s, l.net;
    assert UniqueIds(s.es) && |s.stamp| == n && |s.es| == n;
    hide UniqueIds, Counts, LruOk, Inc, Dec, Get, Pos, ToFront;
    if step.CGet? {
      GetCounts(s, net, step.dev, step.b);
    } else {
      var i := Pos(s.es, step.id);
      if i < n {
        CountAt(s.es, net, i);
        Up(net[step.id]);
        OneCounts(s, net, step, i);
      }
    }
  }

  lemma OneCounts(s: Stamped, net: seq<int>, step: CacheStep, i: nat)
    requires !step.CGet? && i == Pos(s.es, step.id) < |s.es| && UniqueIds(s.es) && Counts(s.es, net) && step.id < |s.stamp|
    requires step.id < |net| && s.es[i].refcnt == net[step.id] % UINT32
    requires Inc(s.es[i].refcnt) == (net[step.id] + 1) % UINT32 && Dec(s.es[i].refcnt) == (net[step.id] - 1) % UINT32
    ensures Counts(DoCacheStep(s, step).es, NetAfter(s, net, step))
  {
    hide UniqueIds, Counts, Inc, Dec, Get, Pos, ToFront;
    match step
    case CPin(_) => CountMoves(s.es, net, i, s.es[i].(refcnt := Inc(s.es[i].refcnt)), 1);
    case CUnpin(_) => CountMoves(s.es, net, i, s.es[i].(refcnt := Dec(s.es[i].refcnt)), -1);
    case CRelease(_, pid) =>
      if s.es[i].owner != 0 && s.es[i].owner == pid {
        var e := s.es[i].(owner := 0, refcnt := Dec(s.es[i].refcnt));
        CountMoves(s.es, net, i, e, -1);
        CountMovesToFront(s.es[i := e], Add(net, step.id, -1), i);
      }
    case CLock(_, pid) => CountSame(s.es, net, i, s.es[i].(owner := pid));
    case CData(_, valid, dirty, data) => CountSame(s.es, net, i, s.es[i].(valid := valid, dirty := dirty, data := data));
  }

  lemma {:induction false} RunCounts(l: Ledger, steps: seq<CacheStep>, n: nat)
    requires LedgerOk(l, n) && forall i :: 0 <= i < |steps| ==> RealDevice(steps[i])
    ensures LedgerOk(RunLedger(l, steps), n)
    decreases |steps|
  {
    if steps != [] {
      StepCounts(l, steps[0], n);
      hide LedgerOk, DoLedger;
      RunCounts(DoLedger(l, steps[0]), steps[1..], n);
    }
  }

  /** No reference is outstanding at boot. */
  function Boot(blank: Block, n: nat): Ledger { Ledger(Fresh(blank, n), seq(n, _ => 0)) }

  /** In every run the count of a buffer is the number of references to it taken and not given back, modulo 2^32.
      So a buffer with a reference outstanding, a pin of the log included, cannot be recycled. */
  lemma RefsAreCounted(blank: Block, steps: seq<CacheStep>, n: nat, l: Ledger)
    requires (forall i :: 0 <= i < |steps| ==> RealDevice(steps[i])) && l == RunLedger(Boot(blank, n), steps)
    ensures l.s == RunCache(Fresh(blank, n), steps) && |l.s.es| == |l.net| == n
    ensures forall i :: 0 <= i < n ==> l.s.es[i].id < n && l.s.es[i].refcnt == l.net[l.s.es[i].id] % UINT32
    ensures forall i :: 0 <= i < n && 0 < l.net[l.s.es[i].id] < UINT32 ==> !Eligible(l.s.es[i])
  {
    hide RunLedger, RunCache, LruOk, Counts, Boot, Fresh;
    BootOk(blank, n);
    RunCounts(Boot(blank, n), steps, n);
    LedgerRuns(Boot(blank, n), steps);
    CountsMean(l, n);
  }

  lemma BootOk(blank: Block, n: nat)
    ensures LedgerOk(Boot(blank, n), n) && Boot(blank, n).s == Fresh(blank, n)
  {
  }

  lemma CountsMean(l: Ledger, n: nat)
    requires LedgerOk(l, n)
    ensures |l.s.es| == |l.net| == n
    ensures forall i :: 0 <= i < n ==> l.s.es[i].id < n && l.s.es[i].refcnt == l.net[l.s.es[i].id] % UINT32
    ensures forall i :: 0 <= i < n && 0 < l.net[l.s.es[i].id] < UINT32 ==> !Eligible(l.s.es[i])
  {
    InRangeIds(l.s, n);
    hide LruOk;
  }
}
