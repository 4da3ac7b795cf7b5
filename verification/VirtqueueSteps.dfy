/** Every step of the driver and the device, each one region under vdisk_lock or one device action. */
module VirtqueueSteps {
  import opened Virtqueue

  predicate Sized(s: State) {
    |s.owner| == RING && |s.desc| == RING && |s.ops| == RING && |s.avail| == RING && |s.used| == RING
  }

  predicate InFlight(s: State, b: nat) { exists r :: r in s.reqs && r.buf == b }

  /** virtio_disk_rw up to its wait. A pass that fails leaves the caller asleep, to try again. */
  function Submit(s: State, b: nat, write: bool, block: nat): State
    requires Sized(s)
  {
    match TryAlloc(s.owner, b)
    case Failed(o, _) => s.(owner := o)
    case Chain(o, d0, d1, d2) => Enqueue(s, o, Req(b, write, block, d0, d1, d2, |s.submitted|))
  }

  function Enqueue(s: State, o: seq<nat>, r: Req): State
    requires Sized(s) && InRing(r)
  {
    s.(owner := o,
       desc := s.desc[r.d0 := Header(r)][r.d1 := Data(r)][r.d2 := Status(r)],
       ops := s.ops[r.d0 := Op(r.write, r.block)],
       valid := s.valid - {r.buf}, reqs := s.reqs + {r},
       avail := s.avail[s.availIdx % RING := r.d0], availIdx := (s.availIdx + 1) % UINT16,
       submitted := s.submitted + [r.d0])
  }

  /** The device reads the next submission. */
  function DevTake(s: State): State
    requires Sized(s)
  {
    s.(taken := s.taken + [s.avail[|s.taken| % RING]])
  }

  /** The device reports submission `p`, in any order. */
  function DevDone(s: State, p: nat): State
    requires Sized(s) && p < |s.taken|
  {
    s.(used := s.used[s.usedIdx % RING := s.taken[p]], usedIdx := (s.usedIdx + 1) % UINT16, completed := s.completed + [p])
  }

  /** One turn of virtio_disk_intr's loop. */
  function IntrOne(s: State): State
    requires Sized(s)
  {
    var id := s.used[s.drvIdx % RING];
    s.(valid := s.valid + (if id < RING && s.owner[id] != 0 then {s.owner[id]} else {}),
       drvIdx := (s.drvIdx + 1) % UINT16, seen := s.seen + 1)
  }

  function Gap(s: State): nat { if s.usedIdx < UINT16 then (s.usedIdx + UINT16 - s.drvIdx % UINT16) % UINT16 else 0 }

  function Intr(s: State): (r: State)
    requires Shaped(s)
    ensures Shaped(r)
    decreases Gap(s)
  {
    if s.drvIdx == s.usedIdx then s else Intr(IntrOne(s))
  }

  /** virtio_disk_rw after its wait. */
  function Finish(s: State, r: Req): State
    requires Sized(s) && InRing(r)
  {
    s.(owner := s.owner[r.d0 := 0][r.d1 := 0][r.d2 := 0],
       desc := s.desc[r.d0 := BLANK][r.d1 := BLANK][r.d2 := BLANK], reqs := s.reqs - {r})
  }

  datatype Step = Rw(b: nat, write: bool, block: nat) | DeviceTakes | DeviceDone(p: nat) | Interrupt | Return(r: Req)

  predicate InRing(r: Req) { r.d0 < RING && r.d1 < RING && r.d2 < RING }

  predicate Shaped(s: State) {
    Sized(s) && s.usedIdx < UINT16 && s.drvIdx < UINT16 && forall r :: r in s.reqs ==> InRing(r)
  }

  /** A step that is not enabled does nothing. The caller of virtio_disk_rw holds its buffer's sleep lock. */
  function Do(s: State, step: Step): (t: State)
    requires Shaped(s)
    ensures Shaped(t)
  {
    match step
    case Rw(b, write, block) => if b == 0 || InFlight(s, b) then s else Submit(s, b, write, block)
    case DeviceTakes => if |s.taken| % UINT16 == s.availIdx then s else DevTake(s)
    case DeviceDone(p) => if p >= |s.taken| || p in s.completed then s else DevDone(s, p)
    case Interrupt => Intr(s)
    case Return(r) => if r in s.reqs && r.buf in s.valid then Finish(s, r) else s
  }

  // ---- submit -------------------------------------------------------------

  lemma HeldAdd(rest: set<Req>, r: Req, d: nat)
    ensures Held(rest + {r}, d) <==> Held(rest, d) || d in r.Slots()
  {
    if Held(rest, d) {
      var q :| q in rest && d in q.Slots();
      assert q in rest + {r};
    }
    if d in r.Slots() {
      assert r in rest + {r};
    }
  }

  /** `o` is the table once the chain of `r` has been taken from free descriptors. */
  ghost predicate Takes(owner: seq<nat>, o: seq<nat>, r: Req) {
    && |owner| == RING && r.buf != 0 && r.d0 < RING && r.d1 < RING && r.d2 < RING
    && r.d0 != r.d1 && r.d0 != r.d2 && r.d1 != r.d2
    && owner[r.d0] == 0 && owner[r.d1] == 0 && owner[r.d2] == 0
    && o == owner[r.d0 := r.buf][r.d1 := r.buf][r.d2 := r.buf]
  }

  lemma InUseAdd(owner: seq<nat>, o: seq<nat>, reqs: set<Req>, r: Req)
    requires Takes(owner, o, r) && InUse(owner, reqs)
    ensures InUse(o, reqs + {r})
  {
    hide Held;
    forall d: nat | d < |o| ensures o[d] != 0 <==> Held(reqs + {r}, d) {
      HeldAdd(reqs, r, d);
    }
  }

  lemma ReqNew(owner: seq<nat>, desc: seq<Desc>, ops: seq<Op>, o: seq<nat>, r: Req)
    requires Takes(owner, o, r) && |desc| == RING && |ops| == RING
    ensures ReqOk(o, desc[r.d0 := Header(r)][r.d1 := Data(r)][r.d2 := Status(r)], ops[r.d0 := Op(r.write, r.block)], r)
  {
  }

  lemma ReqKept(owner: seq<nat>, desc: seq<Desc>, ops: seq<Op>, o: seq<nat>, r: Req, q: Req)
    requires Takes(owner, o, r) && |desc| == RING && |ops| == RING && ReqOk(owner, desc, ops, q)
    ensures ReqOk(o, desc[r.d0 := Header(r)][r.d1 := Data(r)][r.d2 := Status(r)], ops[r.d0 := Op(r.write, r.block)], q)
    ensures r.Slots() !! q.Slots()
  {
    hide Header, Data, Status;
  }

  lemma ChainAdd(s: State, o: seq<nat>, r: Req)
    requires ChainsOk(s.owner, s.desc, s.ops, s.reqs) && Sized(s) && Takes(s.owner, o, r)
    requires forall q :: q in s.reqs ==> q.buf != r.buf && q.pos != r.pos
    ensures var t := Enqueue(s, o, r); ChainsOk(t.owner, t.desc, t.ops, t.reqs)
  {
    hide InUse, ReqOk, Header, Data, Status;
    InUseAdd(s.owner, o, s.reqs, r);
    var t := Enqueue(s, o, r);
    ReqNew(s.owner, s.desc, s.ops, o, r);
    forall q | q in s.reqs ensures ReqOk(t.owner, t.desc, t.ops, q) && q.Apart(r) && r.Apart(q) {
      ReqKept(s.owner, s.desc, s.ops, o, r, q);
    }
  }

  lemma RingRemainder(n: nat, m: nat, c: nat)
    requires n == RING * m + c && c < RING
    ensures n % RING == c
  {
  }

  lemma WordRemainder(n: nat, q: nat, r: nat)
    requires n == UINT16 * q + r && r < UINT16
    ensures n % UINT16 == r
  {
  }

  lemma RingSlot(n: nat)
    ensures (n % UINT16) % RING == n % RING && (n % UINT16 + 1) % UINT16 == (n + 1) % UINT16
  {
    var q, r := n / UINT16, n % UINT16;
    assert n == UINT16 * q + r;
    var a, c := r / RING, r % RING;
    assert r == RING * a + c && UINT16 == RING * 0x2000;
    RingRemainder(n, 0x2000 * q + a, c);
    if r + 1 < UINT16 {
      WordRemainder(n + 1, q, r + 1);
    } else {
      WordRemainder(n + 1, q + 1, 0);
    }
  }

  lemma SlotsDiffer(p: nat, n: nat)
    requires p < n <= p + 2
    ensures p % RING != n % RING
  {
  }

  lemma AvailAdd(avail: seq<nat>, availIdx: nat, submitted: seq<nat>, taken: seq<nat>, d: nat)
    requires AvailOk(avail, availIdx, submitted, taken) && |submitted| - |taken| <= 2
    ensures AvailOk(avail[availIdx % RING := d], (availIdx + 1) % UINT16, submitted + [d], taken)
  {
    var n := |submitted|;
    RingSlot(n);
    forall p | |taken| <= p < n ensures p % RING != n % RING {
      SlotsDiffer(p, n);
    }
    hide RING, UINT16;
  }

  lemma WaitAdd(s: State, o: seq<nat>, r: Req)
    requires s.seen <= |s.completed| && WaitOk(s.reqs, s.submitted, s.completed[..s.seen], s.valid) && Sized(s)
    requires r.pos == |s.submitted| && r.d0 < RING && r.d1 < RING && r.d2 < RING
    requires forall q :: q in s.reqs ==> q.buf != r.buf
    requires r.pos !in s.completed[..s.seen]
    ensures var t := Enqueue(s, o, r); WaitOk(t.reqs, t.submitted, t.completed[..t.seen], t.valid)
  {
    var t := Enqueue(s, o, r);
    var handled := s.completed[..s.seen];
    forall p: nat | p < |t.submitted| && p !in handled ensures Waiting(t.reqs, p) {
      if p < |s.submitted| {
        assert Waiting(s.reqs, p);
        var q :| q in s.reqs && q.pos == p;
        assert q in t.reqs;
      } else {
        assert r in t.reqs;
      }
    }
  }

  lemma PositionsPast(s: State)
    requires VqOk(s)
    ensures Sized(s) && s.seen <= |s.completed| && |s.taken| <= |s.submitted|
    ensures forall r :: r in s.reqs ==> r.pos < |s.submitted|
  {
  }

  lemma EnqueueKeeps(s: State, o: seq<nat>, r: Req)
    requires VqOk(s) && Takes(s.owner, o, r) && r.pos == |s.submitted| && !InFlight(s, r.buf)
    ensures VqOk(Enqueue(s, o, r))
  {
    hide ChainsOk, AvailOk, UsedOk, WaitOk;
    RingsNeverFill(s);
    PositionsPast(s);
    NotTakenNotHandled(s, r.pos);
    ChainAdd(s, o, r);
    AvailAdd(s.avail, s.availIdx, s.submitted, s.taken, r.d0);
    WaitAdd(s, o, r);
  }

  /** virtio_disk_rw either gets a chain, exactly when fewer than two are in flight, or gives back exactly two
      descriptors, leaves everything as it was and sleeps. */
  lemma SubmitKeeps(s: State, b: nat, write: bool, block: nat)
    requires VqOk(s) && b != 0 && !InFlight(s, b)
    ensures VqOk(Submit(s, b, write, block))
    ensures TryAlloc(s.owner, b).Chain? <==> |s.reqs| < 2
    ensures |s.reqs| >= 2 ==> TryAlloc(s.owner, b).got == 2 && Submit(s, b, write, block) == s
  {
    FreeCount(s.owner, s.desc, s.ops, s.reqs);
    TryAllocOutcome(s.owner, b);
    var a := TryAlloc(s.owner, b);
    hide TryAlloc;
    if a.Chain? {
      var r := Req(b, write, block, a.d0, a.d1, a.d2, |s.submitted|);
      ThreeFree(s.owner, a.d0, a.d1, a.d2);
      assert Takes(s.owner, a.owner, r);
      hide VqOk, Takes;
      EnqueueKeeps(s, a.owner, r);
    }
  }

  lemma ThreeFree(owner: seq<nat>, d0: nat, d1: nat, d2: nat)
    requires {d0, d1, d2} <= Free(owner) && d0 != d1 && d0 != d2 && d1 != d2
    ensures d0 < |owner| && d1 < |owner| && d2 < |owner| && owner[d0] == 0 && owner[d1] == 0 && owner[d2] == 0
    ensures |Free(owner)| >= 3
  {
    assert d0 in Free(owner) && d1 in Free(owner) && d2 in Free(owner);
    SubsetCount({d0, d1, d2}, Free(owner));
  }

  // ---- the device ---------------------------------------------------------

  /** The device reads exactly the next chain the driver submitted. */
  lemma TakeKeeps(s: State)
    requires VqOk(s) && |s.taken| % UINT16 != s.availIdx
    ensures VqOk(DevTake(s)) && |s.taken| < |s.submitted| && DevTake(s).taken == s.taken + [s.submitted[|s.taken|]]
  {
    RingsNeverFill(s);
    hide ChainsOk, WaitOk;
  }

  lemma UsedAdd(used: seq<nat>, usedIdx: nat, drvIdx: nat, taken: seq<nat>, completed: seq<nat>, seen: nat, p: nat)
    requires UsedOk(used, usedIdx, drvIdx, taken, completed, seen) && |completed| - seen <= 2
    requires p < |taken| && p !in completed
    ensures UsedOk(used[usedIdx % RING := taken[p]], (usedIdx + 1) % UINT16, drvIdx, taken, completed + [p], seen)
  {
    var n := |completed|;
    RingSlot(n);
    forall q | seen <= q < n ensures q % RING != n % RING {
      SlotsDiffer(q, n);
    }
    hide RING, UINT16;
  }

  lemma DoneKeeps(s: State, p: nat)
    requires VqOk(s) && p < |s.taken| && p !in s.completed
    ensures VqOk(DevDone(s, p))
  {
    hide ChainsOk, AvailOk, UsedOk, WaitOk;
    RingsNeverFill(s);
    PositionsPast(s);
    UsedAdd(s.used, s.usedIdx, s.drvIdx, s.taken, s.completed, s.seen, p);
    assert DevDone(s, p).completed[..s.seen] == s.completed[..s.seen];
  }

  // ---- the interrupt ------------------------------------------------------

  /** The entry the handler looks at names the chain of the call whose submission was completed. */
  lemma EntryFound(s: State) returns (r: Req)
    requires VqOk(s) && s.seen < |s.completed|
    ensures r in s.reqs && r.pos == s.completed[s.seen] && r.d0 < RING && s.owner[r.d0] == r.buf != 0
    ensures s.used[s.drvIdx % RING] == r.d0
  {
    NotYetHandled(s, s.seen);
    RingSlot(s.seen);
    assert Waiting(s.reqs, s.completed[s.seen]);
    r :| r in s.reqs && r.pos == s.completed[s.seen];
    hide InUse;
    assert ReqOk(s.owner, s.desc, s.ops, r);
  }

  lemma WaitHandle(reqs: set<Req>, submitted: seq<nat>, handled: seq<nat>, valid: set<nat>, r: Req)
    requires WaitOk(reqs, submitted, handled, valid) && r in reqs
    requires forall q :: q in reqs && q != r ==> q.buf != r.buf && q.pos != r.pos
    ensures WaitOk(reqs, submitted, handled + [r.pos], valid + {r.buf})
  {
  }

  lemma UsedHandle(used: seq<nat>, usedIdx: nat, drvIdx: nat, taken: seq<nat>, completed: seq<nat>, seen: nat)
    requires UsedOk(used, usedIdx, drvIdx, taken, completed, seen) && seen < |completed|
    ensures UsedOk(used, usedIdx, (drvIdx + 1) % UINT16, taken, completed, seen + 1)
  {
    RingSlot(seen);
  }

  lemma OthersApart(s: State, r: Req)
    requires VqOk(s) && r in s.reqs
    ensures forall q :: q in s.reqs && q != r ==> q.buf != r.buf && q.pos != r.pos && q.Slots() !! r.Slots()
  {
    hide InUse;
    forall q | q in s.reqs && q != r ensures q.buf != r.buf && q.pos != r.pos && q.Slots() !! r.Slots() {
      assert q.Apart(r);
    }
  }

  /** One turn of the loop sets B_VALID of exactly one buffer: the one whose request was completed. */
  lemma IntrOneKeeps(s: State) returns (r: Req)
    requires VqOk(s) && s.seen < |s.completed|
    ensures VqOk(IntrOne(s)) && r in s.reqs && r.pos == s.completed[s.seen] && IntrOne(s).valid == s.valid + {r.buf}
  {
    hide ChainsOk, AvailOk, UsedOk, WaitOk;
    PositionsPast(s);
    r := EntryFound(s);
    OthersApart(s, r);
    UsedHandle(s.used, s.usedIdx, s.drvIdx, s.taken, s.completed, s.seen);
    WaitHandle(s.reqs, s.submitted, s.completed[..s.seen], s.valid, r);
    assert s.completed[..s.seen + 1] == s.completed[..s.seen] + [r.pos];
  }

  /** The buffers of the calls whose submissions are among `ps`. */
  ghost function BuffersOf(reqs: set<Req>, ps: seq<nat>): set<nat> {
    set r | r in reqs && r.pos in ps :: r.buf
  }

  lemma BuffersNext(reqs: set<Req>, r: Req, ps: seq<nat>)
    requires r in reqs && forall q :: q in reqs && q != r ==> q.pos != r.pos
    ensures BuffersOf(reqs, [r.pos] + ps) == {r.buf} + BuffersOf(reqs, ps)
  {
  }

  lemma ShapeHolds(s: State)
    requires VqOk(s)
    ensures Shaped(s) && s.seen <= |s.completed|
  {
    hide InUse;
    forall r | r in s.reqs ensures InRing(r) {
      assert ReqOk(s.owner, s.desc, s.ops, r);
    }
  }

  /** The handler handles every completion reported so far and wakes exactly their calls. */
  lemma {:induction false} InterruptKeeps(s: State)
    requires VqOk(s) && Shaped(s) && s.seen <= |s.completed|
    ensures VqOk(Intr(s))
    ensures Intr(s) == s.(valid := s.valid + BuffersOf(s.reqs, s.completed[s.seen..]), drvIdx := s.usedIdx, seen := |s.completed|)
    decreases Gap(s)
  {
    hide VqOk;
    RingsNeverFill(s);
    if s.drvIdx == s.usedIdx {
      assert s.completed[s.seen..] == [];
    } else {
      var r := IntrOneKeeps(s);
      OthersApart(s, r);
      ShapeHolds(IntrOne(s));
      InterruptKeeps(IntrOne(s));
      BuffersNext(s.reqs, r, s.completed[s.seen + 1..]);
      assert s.completed[s.seen..] == [r.pos] + s.completed[s.seen + 1..];
    }
  }

  // ---- return -------------------------------------------------------------

  lemma InUseDrop(owner: seq<nat>, reqs: set<Req>, r: Req)
    requires |owner| == RING && InUse(owner, reqs) && r in reqs && r.d0 < RING && r.d1 < RING && r.d2 < RING
    requires forall q :: q in reqs && q != r ==> q.Slots() !! r.Slots()
    ensures InUse(owner[r.d0 := 0][r.d1 := 0][r.d2 := 0], reqs - {r})
  {
    var o := owner[r.d0 := 0][r.d1 := 0][r.d2 := 0];
    var rest := reqs - {r};
    assert reqs == rest + {r};
    forall d: nat | d < |o| ensures o[d] != 0 <==> Held(rest, d) {
      HeldAdd(rest, r, d);
    }
  }

  lemma ReqStays(owner: seq<nat>, desc: seq<Desc>, ops: seq<Op>, r: Req, q: Req)
    requires |owner| == RING && |desc| == RING && |ops| == RING && ReqOk(owner, desc, ops, q)
    requires r.d0 < RING && r.d1 < RING && r.d2 < RING && q.Slots() !! r.Slots()
    ensures ReqOk(owner[r.d0 := 0][r.d1 := 0][r.d2 := 0], desc[r.d0 := BLANK][r.d1 := BLANK][r.d2 := BLANK], ops, q)
  {
    hide Header, Data, Status;
    assert q.d0 in q.Slots() && q.d1 in q.Slots() && q.d2 in q.Slots();
    assert r.d0 in r.Slots() && r.d1 in r.Slots() && r.d2 in r.Slots();
  }

  lemma ChainDrop(owner: seq<nat>, desc: seq<Desc>, ops: seq<Op>, reqs: set<Req>, r: Req)
    requires ChainsOk(owner, desc, ops, reqs) && r in reqs && r.d0 < RING && r.d1 < RING && r.d2 < RING
    requires forall q :: q in reqs && q != r ==> q.Slots() !! r.Slots()
    ensures ChainsOk(owner[r.d0 := 0][r.d1 := 0][r.d2 := 0], desc[r.d0 := BLANK][r.d1 := BLANK][r.d2 := BLANK], ops, reqs - {r})
  {
    hide InUse, ReqOk, Req.Apart, Req.Slots, Header, Data, Status;
    InUseDrop(owner, reqs, r);
    forall q | q in reqs - {r}
      ensures ReqOk(owner[r.d0 := 0][r.d1 := 0][r.d2 := 0], desc[r.d0 := BLANK][r.d1 := BLANK][r.d2 := BLANK], ops, q)
    {
      ReqStays(owner, desc, ops, r, q);
    }
  }

  lemma WaitDrop(reqs: set<Req>, submitted: seq<nat>, handled: seq<nat>, valid: set<nat>, r: Req)
    requires WaitOk(reqs, submitted, handled, valid) && r in reqs && r.buf in valid
    ensures WaitOk(reqs - {r}, submitted, handled, valid)
  {
    forall p: nat | p < |submitted| && p !in handled ensures Waiting(reqs - {r}, p) {
      assert Waiting(reqs, p);
      var q :| q in reqs && q.pos == p;
      assert q in reqs - {r};
    }
  }

  lemma FinishKeeps(s: State, r: Req)
    requires VqOk(s) && Sized(s) && r in s.reqs && r.buf in s.valid && InRing(r)
    ensures VqOk(Finish(s, r))
  {
    hide ChainsOk, AvailOk, UsedOk, WaitOk;
    PositionsPast(s);
    OthersApart(s, r);
    ChainDrop(s.owner, s.desc, s.ops, s.reqs, r);
    WaitDrop(s.reqs, s.submitted, s.completed[..s.seen], s.valid, r);
  }

  // ---- whole runs ---------------------------------------------------------

  lemma StepKeeps(s: State, step: Step)
    requires VqOk(s) && Shaped(s)
    ensures VqOk(Do(s, step))
  {
    hide VqOk, Sized, InFlight;
    match step
    case Rw(b, write, block) =>
      if b != 0 && !InFlight(s, b) {
        SubmitKeeps(s, b, write, block);
      }
    case DeviceTakes =>
      if |s.taken| % UINT16 != s.availIdx {
        TakeKeeps(s);
      }
    case DeviceDone(p) =>
      if p < |s.taken| && p !in s.completed {
        DoneKeeps(s, p);
      }
    case Interrupt =>
      ShapeHolds(s);
      InterruptKeeps(s);
    case Return(r) =>
      if r in s.reqs && r.buf in s.valid {
        FinishKeeps(s, r);
      }
  }

  /** A queue as virtio_disk_init leaves it. */
  ghost predicate Fresh(s: State) {
    && Sized(s) && (forall i: nat :: i < RING ==> s.owner[i] == 0 && s.desc[i] == BLANK) && s.reqs == {}
    && s.availIdx == 0 && s.usedIdx == 0 && s.drvIdx == 0 && s.seen == 0
    && s.submitted == [] && s.taken == [] && s.completed == []
  }

  lemma FreshOk(s: State)
    requires Fresh(s)
    ensures VqOk(s) && Shaped(s)
  {
    assert InUse(s.owner, s.reqs);
  }

  function Run(s: State, steps: seq<Step>): State
    requires Shaped(s)
    decreases |steps|
  {
    if steps == [] then s else Run(Do(s, steps[0]), steps[1..])
  }

  lemma {:induction false} RunKeeps(s: State, steps: seq<Step>)
    requires VqOk(s) && Shaped(s)
    ensures VqOk(Run(s, steps))
    decreases |steps|
  {
    if steps != [] {
      StepKeeps(s, steps[0]);
      RunKeeps(Do(s, steps[0]), steps[1..]);
    }
  }

  /** In every reachable state: k <= 2 calls hold disjoint chains and 8 - 3k descriptors are free; at most two
      entries of either ring are unread; and a call may go on exactly when its own completion was handled. */
  lemma QueueDiscipline(s: State, steps: seq<Step>, t: State)
    requires Fresh(s) && Shaped(s) && t == Run(s, steps)
    ensures |t.reqs| <= 2 && |Free(t.owner)| == RING - 3 * |t.reqs| && Disjoint(t.reqs)
    ensures |t.submitted| - |t.taken| <= 2 && |t.completed| - t.seen <= 2
    ensures t.seen <= |t.completed| && forall r :: r in t.reqs ==> (r.buf in t.valid <==> r.pos in t.completed[..t.seen])
  {
    FreshOk(s);
    RunKeeps(s, steps);
    FreeCount(t.owner, t.desc, t.ops, t.reqs);
    ChainsDisjoint(t.owner, t.desc, t.ops, t.reqs);
    RingsNeverFill(t);
  }
}
