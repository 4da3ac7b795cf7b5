/** The driver's arrays in place; each method is tied to the step it performs. */
module VirtioDisk {
  import opened Virtqueue
  import opened VirtqueueSteps
  import opened VirtqueueWalk

  /** The table after descriptors `idx` went to buffer `b`, each being the first free one in its turn. */
  function TakeAll(owner: seq<nat>, idx: seq<int>, b: nat): (o: seq<nat>)
    ensures |o| == |owner|
  {
    if idx == [] then owner
    else
      var o := TakeAll(owner, idx[..|idx| - 1], b);
      var i := idx[|idx| - 1];
      if 0 <= i < |o| then Take(o, i, b) else o
  }

  ghost predicate InTurn(owner: seq<nat>, idx: seq<int>, b: nat) {
    forall k :: 0 <= k < |idx| ==> idx[k] == FirstFree(TakeAll(owner, idx[..k], b)) < |owner|
  }

  lemma TakeAllNext(owner: seq<nat>, idx: seq<int>, b: nat, i: nat)
    requires i < |owner|
    ensures TakeAll(owner, idx + [i], b) == Take(TakeAll(owner, idx, b), i, b)
  {
    assert (idx + [i])[..|idx|] == idx;
  }

  lemma NextTurn(owner: seq<nat>, idx: seq<int>, b: nat, i: nat)
    requires InTurn(owner, idx, b) && i == FirstFree(TakeAll(owner, idx, b)) && i < |owner|
    ensures InTurn(owner, idx + [i], b) && TakeAll(owner, idx + [i], b) == Take(TakeAll(owner, idx, b), i, b)
  {
    TakeAllNext(owner, idx, b, i);
    hide TakeAll, FirstFree;
    var all := idx + [i];
    forall k | 0 <= k < |all| ensures all[k] == FirstFree(TakeAll(owner, all[..k], b)) < |owner| {
      if k < |idx| {
        assert all[..k] == idx[..k];
      } else {
        assert all[..k] == idx;
      }
    }
  }

  lemma NoTurns(owner: seq<nat>, idx: seq<int>, b: nat)
    requires idx == []
    ensures InTurn(owner, idx, b) && TakeAll(owner, idx, b) == owner
  {
  }

  lemma ThreeTurns(owner: seq<nat>, idx: seq<int>, b: nat)
    requires InTurn(owner, idx, b) && |idx| == 3
    ensures TryAlloc(owner, b) == Chain(TakeAll(owner, idx, b), idx[0], idx[1], idx[2])
  {
    TwoTurns(owner, idx[..2], b);
    assert idx[..2][..1] == idx[..1] && idx[..3] == idx;
    assert idx[2] == FirstFree(TakeAll(owner, idx[..2], b));
  }

  lemma TwoTurns(owner: seq<nat>, idx: seq<int>, b: nat)
    requires InTurn(owner, idx, b) && |idx| == 2
    ensures idx[0] == FirstFree(owner) < |owner|
    ensures idx[1] == FirstFree(Take(owner, idx[0], b)) < |owner|
    ensures TakeAll(owner, idx, b) == Take(Take(owner, idx[0], b), idx[1], b)
  {
    assert idx[..1][..0] == idx[..0] == [];
    assert idx[..1] == [idx[0]] && idx[..2] == idx;
    assert TakeAll(owner, idx[..0], b) == owner;
    assert idx[0] == FirstFree(TakeAll(owner, idx[..0], b));
    assert TakeAll(owner, idx[..1], b) == Take(owner, idx[0], b);
  }

  /** A pass that stopped after `idx` is the failing pass of TryAlloc. */
  lemma FailedPass(owner: seq<nat>, idx: seq<int>, b: nat)
    requires InTurn(owner, idx, b) && |idx| < 3 && FirstFree(TakeAll(owner, idx, b)) == |owner|
    ensures TryAlloc(owner, b).Failed? && TryAlloc(owner, b).got == |idx|
  {
    if |idx| == 2 {
      TwoTurns(owner, idx, b);
    } else if |idx| == 1 {
      assert idx[..0] == [] && idx == [idx[0]];
      assert idx[0] == FirstFree(TakeAll(owner, idx[..0], b));
      assert TakeAll(owner, idx[..0], b) == owner;
      assert TakeAll(owner, idx, b) == Take(owner, idx[0], b);
    }
  }

  lemma FreePair(owner: seq<nat>, idx: seq<int>, b: nat)
    requires |idx| == 3 && b != 0 && idx[0] == FirstFree(owner) < |owner|
    requires idx[1] == FirstFree(Take(owner, idx[0], b)) < |owner|
    ensures 0 <= idx[0] < |owner| && 0 <= idx[1] < |owner| && owner[idx[0]] == 0 && owner[idx[1]] == 0
  {
  }

  lemma TryAllocInRing(owner: seq<nat>, b: nat)
    ensures TryAlloc(owner, b).Chain? ==> TryAlloc(owner, b).d0 < |owner| && TryAlloc(owner, b).d1 < |owner|
    ensures TryAlloc(owner, b).Chain? ==> TryAlloc(owner, b).d2 < |owner| && TryAlloc(owner, b).owner[TryAlloc(owner, b).d0] == b
  {
  }

  lemma IntrNext(s: State)
    requires Shaped(s) && s.drvIdx != s.usedIdx
    ensures Shaped(IntrOne(s)) && Gap(IntrOne(s)) < Gap(s)
    ensures Intr(s) == Intr(IntrOne(s))
  {
    GapNext(s);
    hide Gap, IntrOne, Shaped;
  }

  lemma GapNext(s: State)
    requires Shaped(s) && s.drvIdx != s.usedIdx
    ensures Shaped(IntrOne(s)) && Gap(IntrOne(s)) < Gap(s)
  {
  }

  lemma IntrEnd(s: State)
    requires Shaped(s) && s.drvIdx == s.usedIdx
    ensures Intr(s) == s
  {
  }

  lemma FirstFreeBound(owner: seq<nat>)
    ensures FirstFree(owner) <= |owner|
  {
  }

  lemma ViewFreeCount(s: State)
    requires VqOk(s)
    ensures |Free(s.owner)| >= 2
  {
    FreeCount(s.owner, s.desc, s.ops, s.reqs);
  }

  lemma FreeAreBlank(s: State)
    requires VqOk(s)
    ensures Sized(s) && forall d: nat :: d < RING && s.owner[d] == 0 ==> s.desc[d] == BLANK
  {
  }

  class Disk {
    const owner: array<nat>
    const desc: array<Desc>
    const ops: array<Op>
    const avail: array<nat>
    const used: array<nat>
    var availIdx: nat
    var usedIdx: nat
    var drvIdx: nat
    var valid: set<nat>
    ghost var reqs: set<Req>
    ghost var submitted: seq<nat>
    ghost var taken: seq<nat>
    ghost var completed: seq<nat>
    ghost var seen: nat

    /** virtio_disk_init's zeroed structures. */
    constructor ()
      ensures Fresh(View()) && fresh(owner) && fresh(desc) && fresh(ops) && fresh(avail) && fresh(used)
    {
      owner := new nat[RING](_ => 0);
      desc := new Desc[RING](_ => BLANK);
      ops := new Op[RING](_ => Op(false, 0));
      avail := new nat[RING](_ => 0);
      used := new nat[RING](_ => 0);
      availIdx, usedIdx, drvIdx, valid := 0, 0, 0, {};
      reqs, submitted, taken, completed, seen := {}, [], [], [], 0;
    }

    ghost function View(): State
      reads this, owner, desc, ops, avail, used
    {
      State(owner[..], desc[..], ops[..], valid, reqs, avail[..], availIdx, used[..], usedIdx, drvIdx,
            submitted, taken, completed, seen)
    }

    ghost predicate Arrays() {
      owner.Length == RING && desc.Length == RING && ops.Length == RING && avail.Length == RING && used.Length == RING
      && avail != used && avail != owner && used != owner
    }

    method AllocDesc() returns (i: int)
      ensures i == if FirstFree(owner[..]) == owner.Length then -1 else FirstFree(owner[..])
    {
      for k := 0 to owner.Length
        invariant forall j :: 0 <= j < k ==> owner[..][j] != 0
      {
        if owner[k] == 0 {
          assert owner[..][k] == 0;
          return k;
        }
      }
      return -1;
    }

    method FreeDesc(i: nat)
      requires i < owner.Length == desc.Length
      modifies owner, desc
      ensures owner[..] == old(owner[..])[i := 0] && desc[..] == old(desc[..])[i := BLANK]
    {
      desc[i] := BLANK;
      owner[i] := 0;
    }

    /** The rollback of a failed pass; `was` is the table before the pass. */
    method GiveBack(idx: seq<int>, ghost was: seq<nat>, ghost b: nat)
      requires Arrays() && |idx| == 3 && 0 <= idx[0] < RING && 0 <= idx[1] < RING && idx[2] == -1
      requires |was| == RING && was[idx[0]] == 0 && was[idx[1]] == 0
      requires owner[..] == was[idx[0] := b][idx[1] := b]
      requires forall d: nat :: d < RING && was[d] == 0 ==> desc[d] == BLANK
      modifies owner, desc
      ensures owner[..] == was && desc[..] == old(desc[..])
    {
      ghost var mid := owner[..];
      for i := 0 to 3
        invariant owner[..] == if i == 0 then mid else if i == 1 then mid[idx[0] := 0] else was
        invariant desc[..] == old(desc[..])
      {
        if idx[i] >= 0 {
          FreeDesc(idx[i]);
        }
      }
    }

    /** One pass of the allocation loop. A pass that fails always does so at the third descriptor: its rollback
        reads no index that was not set, and puts the tables back as they were. */
    method AllocPass(b: nat) returns (ok: bool, idx: seq<int>)
      requires Arrays() && VqOk(View()) && b != 0
      modifies owner, desc
      ensures |idx| == 3 && desc[..] == old(desc[..])
      ensures ok ==> 0 <= idx[0] && 0 <= idx[1] && 0 <= idx[2]
      ensures ok ==> TryAlloc(old(owner[..]), b) == Chain(owner[..], idx[0], idx[1], idx[2])
      ensures !ok ==> TryAlloc(old(owner[..]), b) == Failed(owner[..], 2) && owner[..] == old(owner[..])
    {
      hide FirstFree, TryAlloc, TakeAll, InTurn, Free, VqOk;
      ghost var was := owner[..];
      ViewFreeCount(View());
      FreeAreBlank(View());
      TryAllocOutcome(was, b);
      ok, idx := true, [];
      NoTurns(was, idx, b);
      while |idx| < 3 && ok
        invariant |idx| <= 3 && desc[..] == old(desc[..])
        invariant ok ==> InTurn(was, idx, b) && owner[..] == TakeAll(was, idx, b)
        invariant !ok ==> |idx| > 0 && idx[|idx| - 1] == -1 && InTurn(was, idx[..|idx| - 1], b)
        invariant !ok ==> owner[..] == TakeAll(was, idx[..|idx| - 1], b) && FirstFree(owner[..]) == |was|
        decreases 3 - |idx|, ok
      {
        var i := AllocDesc();
        if i < 0 {
          assert (idx + [i])[..|idx|] == idx;
          idx, ok := idx + [i], false;
        } else {
          FirstFreeBound(owner[..]);
          NextTurn(was, idx, b, i);
          owner[i] := b;
          idx := idx + [i];
        }
      }
      if ok {
        ThreeTurns(was, idx, b);
      } else {
        FailedPass(was, idx[..|idx| - 1], b);
        TwoTurns(was, idx[..2], b);
        FreePair(was, idx, b);
        GiveBack(idx, was, b);
      }
    }

    /** virtio_disk_rw up to its wait; false when it must sleep and try again. */
    method Start(b: nat, write: bool, block: nat) returns (ok: bool)
      requires Arrays() && VqOk(View()) && b != 0 && !InFlight(View(), b)
      modifies this, owner, desc, ops, avail
      ensures VqOk(View()) && View() == Submit(old(View()), b, write, block)
      ensures ok <==> old(|reqs|) < 2
      ensures ok ==> submitted != [] && Asks(desc[..], ops[..], submitted[|submitted| - 1], b, write, block) && b !in valid
      ensures ok ==> availIdx == (old(availIdx) + 1) % UINT16 && avail[old(availIdx) % RING] == submitted[|submitted| - 1]
      ensures !ok ==> View() == old(View())
    {
      hide TryAlloc, VqOk, Header, Data, Status, Asks;
      ghost var s := View();
      SubmitKeeps(s, b, write, block);
      if |reqs| < 2 {
        SubmitAsks(s, b, write, block);
      }
      var idx: seq<int>;
      ok, idx := AllocPass(b);
      if ok {
        TryAllocInRing(s.owner, b);
        ghost var r := Req(b, write, block, idx[0], idx[1], idx[2], |submitted|);
        FillChain(b, write, block, idx, r);
        Publish(b, idx[0], r);
      } else {
        assert View() == s;
      }
    }

    method FillChain(b: nat, write: bool, block: nat, idx: seq<int>, ghost r: Req)
      requires Arrays() && |idx| == 3 && idx == [r.d0, r.d1, r.d2] && InRing(r)
      requires r.buf == b && r.write == write && r.block == block && owner[r.d0] == b
      modifies owner, desc, ops
      ensures owner[..] == old(owner[..]) && ops[..] == old(ops[..])[r.d0 := Op(r.write, r.block)]
      ensures desc[..] == old(desc[..])[r.d0 := Header(r)][r.d1 := Data(r)][r.d2 := Status(r)]
    {
      ops[idx[0]] := Op(write, block);
      desc[idx[0]] := Desc(OpAt(idx[0]), 16, NEXT, idx[1]);
      desc[idx[1]] := Desc(DataOf(b), 512, (if write then 0 else WRITE) + NEXT, idx[2]);
      desc[idx[2]] := Desc(StatusAt(idx[0]), 1, WRITE, 0);
      owner[idx[0]] := b;
    }

    method Publish(b: nat, head: nat, ghost r: Req)
      requires Arrays() && InRing(r) && r.buf == b && r.d0 == head
      modifies this, avail
      ensures owner[..] == old(owner[..]) && desc[..] == old(desc[..]) && ops[..] == old(ops[..]) && used[..] == old(used[..])
      ensures valid == old(valid) - {b} && reqs == old(reqs) + {r}
      ensures avail[..] == old(avail[..])[old(availIdx) % RING := head] && availIdx == (old(availIdx) + 1) % UINT16
      ensures submitted == old(submitted) + [head] && taken == old(taken) && completed == old(completed)
      ensures seen == old(seen) && drvIdx == old(drvIdx) && usedIdx == old(usedIdx)
    {
      valid := valid - {b};
      avail[availIdx % RING] := head;
      availIdx := (availIdx + 1) % UINT16;
      reqs, submitted := reqs + {r}, submitted + [head];
    }

    /** virtio_disk_rw after its wait. */
    method Return(ghost r: Req, idx: seq<int>)
      requires Arrays() && VqOk(View()) && r in reqs && r.buf in valid && idx == [r.d0, r.d1, r.d2] && InRing(r)
      modifies `reqs, owner, desc
      ensures VqOk(View()) && View() == Finish(old(View()), r)
    {
      hide VqOk;
      ghost var s := View();
      FinishKeeps(s, r);
      owner[idx[0]] := 0;
      FreeDesc(idx[0]);
      FreeDesc(idx[1]);
      FreeDesc(idx[2]);
      assert owner[..] == s.owner[idx[0] := 0][idx[1] := 0][idx[2] := 0];
      assert desc[..] == s.desc[idx[0] := BLANK][idx[1] := BLANK][idx[2] := BLANK];
      reqs := reqs - {r};
    }

    /** One turn of virtio_disk_intr's loop. */
    method HandleOne()
      requires Arrays() && Shaped(View())
      modifies `valid, `drvIdx, `seen
      ensures View() == IntrOne(old(View())) && Shaped(View())
    {
      var id := used[drvIdx % RING];
      if id < RING && owner[id] != 0 {
        valid := valid + {owner[id]};
      }
      drvIdx := (drvIdx + 1) % UINT16;
      seen := seen + 1;
    }

    /** virtio_disk_intr: sets B_VALID of exactly the buffers whose requests the device has reported. */
    method Interrupt()
      requires Arrays() && VqOk(View()) && seen <= |completed|
      modifies `valid, `drvIdx, `seen
      ensures VqOk(View()) && drvIdx == usedIdx && seen == |completed|
      ensures valid == old(valid) + BuffersOf(reqs, completed[old(seen)..])
    {
      hide VqOk, Intr, IntrOne, Gap, Shaped, BuffersOf;
      ghost var s := View();
      ShapeHolds(s);
      InterruptKeeps(s);
      while drvIdx != usedIdx
        invariant Shaped(View()) && Intr(View()) == Intr(s) && usedIdx == s.usedIdx && reqs == s.reqs
        decreases Gap(View())
      {
        IntrNext(View());
        HandleOne();
      }
      IntrEnd(View());
    }
  }
}
