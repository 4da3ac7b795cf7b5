/** What a device finds in the queue: it follows a chain from its head along `next` as section 2.6.5 of VIRTIO 1.1
    has it, and gets the request the driver was asked for. */
module VirtqueueWalk {
  import opened Virtqueue
  import opened VirtqueueSteps

  /** A buffer the device is given, and whether it may write there. */
  datatype Segment = Segment(addr: Address, len: nat, deviceWrites: bool)

  /** VIRTQ_DESC_F_NEXT and VIRTQ_DESC_F_WRITE are bits 0 and 1 of the flags. */
  predicate HasNext(d: Desc) { d.flags % 2 == 1 }
  predicate DeviceWrites(d: Desc) { d.flags / 2 % 2 == 1 }

  /** The chain from descriptor `head`, at most `n` descriptors long. */
  function Walk(desc: seq<Desc>, head: nat, n: nat): seq<Segment>
    decreases n
  {
    if n == 0 || head >= |desc| then []
    else
      var d := desc[head];
      [Segment(d.addr, d.len, DeviceWrites(d))] + if HasNext(d) then Walk(desc, d.next, n - 1) else []
  }

  /** The chain at `head` asks for block `block` to be read into, or written from, buffer `b`: a header of 16 bytes,
      the 512 bytes of the buffer, which the device may write exactly when it is to read the disk, and a status byte
      for the device to write. */
  predicate Asks(desc: seq<Desc>, ops: seq<Op>, head: nat, b: nat, write: bool, block: nat) {
    && |desc| == RING && |ops| == RING && head < RING
    && Walk(desc, head, RING) ==
         [Segment(OpAt(head), 16, false), Segment(DataOf(b), 512, !write), Segment(StatusAt(head), 1, true)]
    && ops[head] == Op(write, block)
  }

  lemma WalkNext(desc: seq<Desc>, head: nat, n: nat)
    requires n > 0 && head < |desc|
    ensures var d := desc[head];
      Walk(desc, head, n) == [Segment(d.addr, d.len, DeviceWrites(d))] + if HasNext(d) then Walk(desc, d.next, n - 1) else []
  {
  }

  lemma ChainAsks(owner: seq<nat>, desc: seq<Desc>, ops: seq<Op>, r: Req)
    requires |owner| == RING && |desc| == RING && |ops| == RING && ReqOk(owner, desc, ops, r)
    ensures Asks(desc, ops, r.d0, r.buf, r.write, r.block)
  {
    hide Walk;
    var n := RING;
    WalkNext(desc, r.d0, n);
    WalkNext(desc, r.d1, n - 1);
    WalkNext(desc, r.d2, n - 2);
  }

  /** A request that gets its chain: the device finds, at the head now standing in the ring, what virtio_disk_rw was
      called with, and the buffer counts as not valid until the answer. */
  lemma SubmitAsks(s: State, b: nat, write: bool, block: nat)
    requires VqOk(s) && b != 0 && !InFlight(s, b) && |s.reqs| < 2
    ensures Sized(s) && VqOk(Submit(s, b, write, block))
    ensures var t := Submit(s, b, write, block);
      && |t.submitted| == |s.submitted| + 1 && t.submitted[..|s.submitted|] == s.submitted && b !in t.valid
      && var head := t.submitted[|s.submitted|];
         Asks(t.desc, t.ops, head, b, write, block) && t.avail[|s.submitted| % RING] == head
  {
    SubmitKeeps(s, b, write, block);
    var t := Submit(s, b, write, block);
    var a := TryAlloc(s.owner, b);
    var r := Req(b, write, block, a.d0, a.d1, a.d2, |s.submitted|);
    hide TryAlloc, InFlight, Asks;
    assert r in t.reqs && ReqOk(t.owner, t.desc, t.ops, r);
    ChainAsks(t.owner, t.desc, t.ops, r);
    NotTakenYet(s, t);
  }

  lemma NotTakenYet(s: State, t: State)
    requires VqOk(s) && VqOk(t) && t.taken == s.taken && |t.submitted| == |s.submitted| + 1
    ensures t.avail[|s.submitted| % RING] == t.submitted[|s.submitted|]
  {
  }

  /** A request comes into the queue by the call that asks for it. */
  lemma NewRequest(s: State, step: Step, r: Req)
    requires VqOk(s) && Shaped(s) && r in Do(s, step).reqs && r !in s.reqs
    ensures step == Rw(r.buf, r.write, r.block) && r.pos == |s.submitted|
  {
    hide TryAlloc, VqOk;
    if step.Interrupt? {
      ShapeHolds(s);
      InterruptKeeps(s);
    }
    hide Intr;
  }

  lemma {:induction false} RequestFromStep(s: State, steps: seq<Step>, r: Req)
    requires VqOk(s) && Shaped(s) && r in Run(s, steps).reqs
    ensures r in s.reqs || Rw(r.buf, r.write, r.block) in steps
    decreases |steps|
  {
    if steps != [] {
      var t := Do(s, steps[0]);
      StepKeeps(s, steps[0]);
      if r in t.reqs && r !in s.reqs {
        NewRequest(s, steps[0], r);
      }
      hide Do, VqOk;
      RequestFromStep(t, steps[1..], r);
    }
  }

  /** In every reachable state, whatever the device has or has not done: each request in flight was asked for by a
      virtio_disk_rw call with its buffer, direction and block, and the device finds exactly that in its chain;
      and each submission still to be handled is the chain of such a request. */
  lemma DeviceFindsRequests(s: State, steps: seq<Step>, t: State)
    requires Fresh(s) && Shaped(s) && t == Run(s, steps)
    ensures forall r :: r in t.reqs ==>
      Rw(r.buf, r.write, r.block) in steps && Asks(t.desc, t.ops, r.d0, r.buf, r.write, r.block)
    ensures t.seen <= |t.completed| && forall p: nat :: p < |t.submitted| && p !in t.completed[..t.seen] ==>
      exists r :: r in t.reqs && r.pos == p && t.submitted[p] == r.d0
  {
    FreshOk(s);
    RunKeeps(s, steps);
    hide Asks, Run;
    forall r | r in t.reqs
      ensures Rw(r.buf, r.write, r.block) in steps && Asks(t.desc, t.ops, r.d0, r.buf, r.write, r.block)
    {
      assert ReqOk(t.owner, t.desc, t.ops, r);
      ChainAsks(t.owner, t.desc, t.ops, r);
      RequestFromStep(s, steps, r);
    }
    forall p: nat | p < |t.submitted| && p !in t.completed[..t.seen]
      ensures exists r :: r in t.reqs && r.pos == p && t.submitted[p] == r.d0
    {
      assert Waiting(t.reqs, p);
    }
  }
}
