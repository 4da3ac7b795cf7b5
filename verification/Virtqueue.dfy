/** kernel/fs/virtio_disk.c: chains of three descriptors out of eight, and the two rings of section 2.6 of
    VIRTIO 1.1, with any device that serves requests in any order. */
module Virtqueue {
  const RING: nat := 8
  const UINT16: nat := 0x1_0000
  const NEXT: nat := 1
  const WRITE: nat := 2

  datatype Address = Nowhere | OpAt(slot: nat) | DataOf(buf: nat) | StatusAt(slot: nat)
  datatype Desc = Desc(addr: Address, len: nat, flags: nat, next: nat)
  datatype Op = Op(write: bool, sector: nat)

  const BLANK: Desc := Desc(Nowhere, 0, 0, 0)

  /** A virtio_disk_rw call that holds a chain. `pos` is the place of its submission among all submissions. */
  datatype Req = Req(buf: nat, write: bool, block: nat, d0: nat, d1: nat, d2: nat, pos: nat) {
    function Slots(): set<nat> { {d0, d1, d2} }
    predicate Has(d: nat) { d in Slots() }
    predicate Apart(o: Req) { !o.Has(d0) && !o.Has(d1) && !o.Has(d2) && buf != o.buf && pos != o.pos }
  }

  /** `owner[i]` is info[i].b, 0 when free; `valid` holds the buffers whose B_VALID is set. `submitted` and
      `taken` (heads) and `completed` (places of submissions) are the history; `seen` counts the completions
      the driver has handled. The 16-bit ring indices are kept apart from the history. */
  datatype State = State(owner: seq<nat>, desc: seq<Desc>, ops: seq<Op>, valid: set<nat>, reqs: set<Req>,
                         avail: seq<nat>, availIdx: nat, used: seq<nat>, usedIdx: nat, drvIdx: nat,
                         submitted: seq<nat>, taken: seq<nat>, completed: seq<nat>, seen: nat)

  // ---- descriptors --------------------------------------------------------

  /** alloc_desc: the first free descriptor, or RING. */
  function FirstFree(owner: seq<nat>): (i: nat)
    ensures i <= |owner|
    ensures i < |owner| ==> owner[i] == 0
    ensures forall j :: 0 <= j < i ==> owner[j] != 0
  {
    if owner == [] then 0 else if owner[0] == 0 then 0 else 1 + FirstFree(owner[1..])
  }

  function Free(owner: seq<nat>): set<nat> { set i | 0 <= i < |owner| && owner[i] == 0 }

  datatype Alloc = Chain(owner: seq<nat>, d0: nat, d1: nat, d2: nat) | Failed(owner: seq<nat>, got: nat)

  function Take(owner: seq<nat>, i: nat, b: nat): seq<nat>
    requires i < |owner|
  {
    owner[i := b]
  }

  /** One pass of the allocation loop, the rollback of a failed pass included; `got` descriptors were given
      back. With `got` below 2 the source's rollback would read an index it never set. */
  function TryAlloc(owner: seq<nat>, b: nat): (r: Alloc)
    ensures |r.owner| == |owner|
    ensures r.Chain? ==> r.d0 < |owner| && r.d1 < |owner| && r.d2 < |owner|
  {
    var d0 := FirstFree(owner);
    if d0 == |owner| then Failed(owner, 0)
    else
      var o1 := Take(owner, d0, b);
      var d1 := FirstFree(o1);
      if d1 == |o1| then Failed(Take(o1, d0, 0), 1)
      else
        var o2 := Take(o1, d1, b);
        var d2 := FirstFree(o2);
        if d2 == |o2| then Failed(Take(Take(o2, d0, 0), d1, 0), 2)
        else Chain(Take(o2, d2, b), d0, d1, d2)
  }

  /** An allocation pass takes three free descriptors or restores the table exactly. */
  lemma TryAllocOutcome(owner: seq<nat>, b: nat)
    requires b != 0
    ensures match TryAlloc(owner, b)
      case Chain(o, d0, d1, d2) =>
        && |o| == |owner| && d0 != d1 && d1 != d2 && d0 != d2
        && {d0, d1, d2} <= Free(owner) && Free(o) == Free(owner) - {d0, d1, d2}
        && o == owner[d0 := b][d1 := b][d2 := b]
      case Failed(o, got) => o == owner && |Free(owner)| == got && got < 3
  {
    var d0 := FirstFree(owner);
    if d0 == |owner| {
      assert Free(owner) == {};
    } else {
      var o1 := Take(owner, d0, b);
      var d1 := FirstFree(o1);
      if d1 == |o1| {
        assert forall i :: 0 <= i < |owner| && i != d0 ==> owner[i] == o1[i] != 0;
        assert Free(owner) == {d0};
        assert Take(o1, d0, 0) == owner;
      } else {
        var o2 := Take(o1, d1, b);
        var d2 := FirstFree(o2);
        if d2 == |o2| {
          assert forall i :: 0 <= i < |owner| && i != d0 && i != d1 ==> owner[i] == o2[i] != 0;
          assert Free(owner) == {d0, d1};
          assert Take(Take(o2, d0, 0), d1, 0) == owner;
        }
      }
    }
  }

  // ---- the invariant ------------------------------------------------------

  function Header(r: Req): Desc { Desc(OpAt(r.d0), 16, NEXT, r.d1) }

  /** In a read the device writes the data. */
  function Data(r: Req): Desc { Desc(DataOf(r.buf), 512, (if r.write then 0 else WRITE) + NEXT, r.d2) }

  function Status(r: Req): Desc { Desc(StatusAt(r.d0), 1, WRITE, 0) }

  /** A chain in flight: three different descriptors of its buffer, linked header, data, status, that ask for
      its block in its direction. */
  predicate ReqOk(owner: seq<nat>, desc: seq<Desc>, ops: seq<Op>, r: Req)
    requires |owner| == RING && |desc| == RING && |ops| == RING
  {
    && r.buf != 0 && r.d0 < RING && r.d1 < RING && r.d2 < RING
    && r.d0 != r.d1 && r.d0 != r.d2 && r.d1 != r.d2
    && owner[r.d0] == r.buf && owner[r.d1] == r.buf && owner[r.d2] == r.buf
    && desc[r.d0] == Header(r) && desc[r.d1] == Data(r) && desc[r.d2] == Status(r)
    && ops[r.d0] == Op(r.write, r.block)
  }

  predicate Held(reqs: set<Req>, d: nat) { exists r :: r in reqs && d in r.Slots() }

  /** Chains in flight are disjoint, of different buffers, and are exactly the descriptors in use. */
  ghost predicate ChainsOk(owner: seq<nat>, desc: seq<Desc>, ops: seq<Op>, reqs: set<Req>) {
    && |owner| == RING && |desc| == RING && |ops| == RING
    && (forall r :: r in reqs ==> ReqOk(owner, desc, ops, r))
    && (forall r, q :: r in reqs && q in reqs && r != q ==> r.Apart(q))
    && (forall d: nat :: d < RING && owner[d] == 0 ==> desc[d] == BLANK)
    && InUse(owner, reqs)
  }

  ghost predicate InUse(owner: seq<nat>, reqs: set<Req>) {
    forall d: nat :: d < |owner| ==> (owner[d] != 0 <==> Held(reqs, d))
  }

  /** The device has taken submissions in order; the rest stand in their ring slots. */
  ghost predicate AvailOk(avail: seq<nat>, availIdx: nat, submitted: seq<nat>, taken: seq<nat>) {
    && |avail| == RING && availIdx == |submitted| % UINT16
    && taken <= submitted
    && (forall p :: |taken| <= p < |submitted| ==> avail[p % RING] == submitted[p])
  }

  /** Completions the driver has not handled stand in their ring slots; none is reported twice. */
  ghost predicate UsedOk(used: seq<nat>, usedIdx: nat, drvIdx: nat, taken: seq<nat>, completed: seq<nat>, seen: nat) {
    && |used| == RING && usedIdx == |completed| % UINT16 && drvIdx == seen % UINT16
    && seen <= |completed|
    && (forall q :: 0 <= q < |completed| ==> completed[q] < |taken|)
    && (forall q, r :: 0 <= q < r < |completed| ==> completed[q] != completed[r])
    && (forall q :: seen <= q < |completed| ==> used[q % RING] == taken[completed[q]])
  }

  predicate Waiting(reqs: set<Req>, p: nat) { exists r :: r in reqs && r.pos == p }

  /** Every submission not yet handled belongs to a call that still holds its chain, and a call may go on
      (B_VALID) exactly when its own completion has been handled. */
  ghost predicate WaitOk(reqs: set<Req>, submitted: seq<nat>, handled: seq<nat>, valid: set<nat>) {
    && (forall r :: r in reqs ==> r.pos < |submitted| && submitted[r.pos] == r.d0)
    && (forall r :: r in reqs ==> (r.buf in valid <==> r.pos in handled))
    && (forall p: nat :: p < |submitted| && p !in handled ==> Waiting(reqs, p))
  }

  ghost predicate VqOk(s: State) {
    && ChainsOk(s.owner, s.desc, s.ops, s.reqs)
    && AvailOk(s.avail, s.availIdx, s.submitted, s.taken)
    && UsedOk(s.used, s.usedIdx, s.drvIdx, s.taken, s.completed, s.seen)
    && WaitOk(s.reqs, s.submitted, s.completed[..s.seen], s.valid)
  }

  // ---- counting -----------------------------------------------------------

  function Chained(reqs: set<Req>): (c: set<nat>)
    ensures forall d: nat :: d in c <==> Held(reqs, d)
  {
    set r, d | r in reqs && d in r.Slots() :: d
  }

  lemma SubsetCount<T>(a: set<T>, b: set<T>)
    requires a <= b
    ensures |a| <= |b| && |b - a| == |b| - |a|
  {
    assert b == a + (b - a);
  }

  ghost predicate Disjoint(reqs: set<Req>) {
    && (forall r :: r in reqs ==> |r.Slots()| == 3)
    && (forall r, q :: r in reqs && q in reqs && r != q ==> r.Slots() !! q.Slots())
  }

  lemma ChainedSplit(rest: set<Req>, r: Req)
    requires forall q :: q in rest ==> r.Slots() !! q.Slots()
    ensures Chained(rest + {r}) == Chained(rest) + r.Slots() && Chained(rest) !! r.Slots()
  {
    forall d: nat | d in Chained(rest + {r}) ensures d in Chained(rest) || d in r.Slots() {
      var q :| q in rest + {r} && d in q.Slots();
      assert q != r ==> Held(rest, d);
    }
    hide Req.Slots;
    forall d: nat | d in Chained(rest) ensures Held(rest + {r}, d) && d !in r.Slots() {
      var q :| q in rest && d in q.Slots();
      assert q in rest + {r};
    }
    forall d: nat | d in r.Slots() ensures Held(rest + {r}, d) {
      assert r in rest + {r};
    }
  }

  lemma NoneChained(reqs: set<Req>)
    requires reqs == {}
    ensures Chained(reqs) == {}
  {
  }

  lemma {:induction false} ChainedCount(reqs: set<Req>)
    requires Disjoint(reqs)
    ensures |Chained(reqs)| == 3 * |reqs|
  {
    hide Req.Slots, Held;
    if reqs == {} {
      NoneChained(reqs);
    } else {
      var r :| r in reqs;
      var rest := reqs - {r};
      assert reqs == rest + {r};
      ChainedCount(rest);
      ChainedSplit(rest, r);
    }
  }

  function Below(n: nat): (s: set<nat>)
    ensures forall i: nat :: i in s <==> i < n
    ensures |s| == n
  {
    if n == 0 then {} else Below(n - 1) + {n - 1}
  }

  lemma FreeAndHeld(owner: seq<nat>, c: set<nat>, n: nat)
    requires n == |owner| && forall d: nat :: d in c <==> d < n && owner[d] != 0
    ensures |Free(owner)| == n - |c|
  {
    var all := Below(n);
    assert Free(owner) == all - c && c <= all;
    SubsetCount(c, all);
  }

  lemma ChainsDisjoint(owner: seq<nat>, desc: seq<Desc>, ops: seq<Op>, reqs: set<Req>)
    requires ChainsOk(owner, desc, ops, reqs)
    ensures Disjoint(reqs)
  {
    hide InUse;
    forall r | r in reqs ensures |r.Slots()| == 3 {
      assert ReqOk(owner, desc, ops, r);
    }
    forall r, q | r in reqs && q in reqs && r != q ensures r.Slots() !! q.Slots() {
      assert r.Apart(q);
    }
  }

  lemma HeldInRing(owner: seq<nat>, desc: seq<Desc>, ops: seq<Op>, reqs: set<Req>, d: nat)
    requires ChainsOk(owner, desc, ops, reqs) && Held(reqs, d)
    ensures d < RING
  {
    hide InUse;
    var r :| r in reqs && d in r.Slots();
    assert ReqOk(owner, desc, ops, r);
  }

  /** With k requests holding chains, 8 - 3k descriptors are free and k is at most 2. */
  lemma FreeCount(owner: seq<nat>, desc: seq<Desc>, ops: seq<Op>, reqs: set<Req>)
    requires ChainsOk(owner, desc, ops, reqs)
    ensures |reqs| <= 2 && |Free(owner)| == RING - 3 * |reqs|
  {
    ChainsDisjoint(owner, desc, ops, reqs);
    assert |owner| == RING && InUse(owner, reqs);
    hide ChainsOk, Disjoint, Held;
    forall d: nat | Held(reqs, d) ensures d < |owner| {
      HeldInRing(owner, desc, ops, reqs, d);
    }
    ChainedCount(reqs);
    FreeAndHeld(owner, Chained(reqs), |owner|);
  }

  lemma NoThree(reqs: set<Req>, a: Req, b: Req, c: Req)
    requires |reqs| <= 2 && a in reqs && b in reqs && c in reqs
    ensures a == b || a == c || b == c
  {
    if a != b && a != c && b != c {
      SubsetCount({a, b, c}, reqs);
    }
  }

  /** At most two submissions are not handled, whatever the device has done with them. */
  lemma FewUnhandled(s: State, p: nat, q: nat, r: nat)
    requires VqOk(s) && p < |s.submitted| && q < |s.submitted| && r < |s.submitted|
    requires p !in s.completed[..s.seen] && q !in s.completed[..s.seen] && r !in s.completed[..s.seen]
    ensures p == q || p == r || q == r
  {
    FreeCount(s.owner, s.desc, s.ops, s.reqs);
    hide ChainsOk, AvailOk, UsedOk;
    assert Waiting(s.reqs, p) && Waiting(s.reqs, q) && Waiting(s.reqs, r);
    var a, b, c :| a in s.reqs && a.pos == p && b in s.reqs && b.pos == q && c in s.reqs && c.pos == r;
    NoThree(s.reqs, a, b, c);
  }

  lemma NotYetHandled(s: State, q: nat)
    requires VqOk(s) && s.seen <= q < |s.completed|
    ensures s.completed[q] !in s.completed[..s.seen]
  {
  }

  lemma NotTakenNotHandled(s: State, p: nat)
    requires VqOk(s) && p >= |s.taken|
    ensures p !in s.completed[..s.seen]
  {
  }

  /** Neither ring ever holds more than two entries its reader has not consumed, so no slot is overwritten
      before use, and the 16-bit tests tell the handler exactly whether a completion is waiting, and the device
      whether a submission is. */
  lemma RingsNeverFill(s: State)
    requires VqOk(s)
    ensures |s.submitted| - |s.taken| <= 2 && |s.completed| - s.seen <= 2
    ensures s.drvIdx != s.usedIdx <==> s.seen < |s.completed|
    ensures |s.taken| % UINT16 != s.availIdx <==> |s.taken| < |s.submitted|
  {
    var n, m := |s.taken|, s.seen;
    if |s.submitted| - n > 2 {
      NotTakenNotHandled(s, n);
      NotTakenNotHandled(s, n + 1);
      NotTakenNotHandled(s, n + 2);
      FewUnhandled(s, n, n + 1, n + 2);
    }
    if |s.completed| - m > 2 {
      NotYetHandled(s, m);
      NotYetHandled(s, m + 1);
      NotYetHandled(s, m + 2);
      FewUnhandled(s, s.completed[m], s.completed[m + 1], s.completed[m + 2]);
    }
  }
}
