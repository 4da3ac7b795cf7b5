/** The cache list seen as a partial map from block number to slot: positions do not matter to its users. */
module CacheMap {
  import opened Wrappers
  import opened Params
  import opened Storage
  import opened LogCore
  import opened CacheModel

  /** The slot of block `b` on device `dev`. */
  function SlotAt(es: seq<Entry>, dev: nat, b: nat): Option<Entry> {
    var i := FindKey(es, dev, b);
    if i < |es| then Some(es[i]) else None
  }

  /** Blocks whose slot cannot be recycled. */
  function Busy(es: seq<Entry>): (s: set<nat>)
    ensures |s| <= |es|
  {
    if es == [] then {}
    else
      var n := |es| - 1;
      var s := Busy(es[..n]);
      if Eligible(es[n]) then s else s + {es[n].blockno}
  }

  /** Every slot that cannot be recycled belongs to the device. */
  ghost predicate OneDevice(es: seq<Entry>, dev: nat) {
    forall i :: 0 <= i < |es| && !Eligible(es[i]) ==> es[i].dev == dev
  }

  ghost predicate ListOk(es: seq<Entry>, dev: nat) {
    dev != 0 && UniqueIds(es) && UniqueKeys(es) && OneDevice(es, dev)
  }

  lemma SlotIs(es: seq<Entry>, dev: nat, i: nat)
    requires dev != 0 && UniqueKeys(es) && i < |es| && es[i].dev == dev
    ensures SlotAt(es, dev, es[i].blockno) == Some(es[i]) && FindKey(es, dev, es[i].blockno) == i
  {
    var j := FindKey(es, dev, es[i].blockno);
    assert HasKey(es[i], dev, es[i].blockno);
    assert j <= i;
  }

  /** Same keys everywhere but at `i`. */
  lemma UpdateSlot(es: seq<Entry>, dev: nat, i: nat, e: Entry)
    requires ListOk(es, dev) && i < |es| && es[i].dev == dev
    requires e.id == es[i].id && e.dev == dev && e.blockno == es[i].blockno
    ensures ListOk(es[i := e], dev)
    ensures forall b: nat :: SlotAt(es[i := e], dev, b) == if b == e.blockno then Some(e) else SlotAt(es, dev, b)
  {
    var es' := es[i := e];
    assert UniqueKeys(es');
    forall b: nat
      ensures SlotAt(es', dev, b) == if b == e.blockno then Some(e) else SlotAt(es, dev, b)
    {
      if b == e.blockno {
        SlotIs(es', dev, i);
      } else {
        var j := FindKey(es, dev, b);
        if j < |es| {
          assert es'[j] == es[j];
          SlotIs(es', dev, j);
        } else {
          assert forall k :: 0 <= k < |es| && HasKey(es'[k], dev, b) ==> HasKey(es[k], dev, b);
        }
      }
    }
  }

  /** Handing slot `k` to block `b`: whatever unreferenced block it held is forgotten. */
  lemma RecycleSlot(es: seq<Entry>, dev: nat, b: nat, k: nat)
    requires ListOk(es, dev) && k < |es| && Eligible(es[k]) && SlotAt(es, dev, b) == None
    ensures var e := Recycled(es[k], dev, b);
      && ListOk(es[k := e], dev)
      && SlotAt(es[k := e], dev, b) == Some(e)
      && forall x: nat :: x != b ==>
           || SlotAt(es[k := e], dev, x) == SlotAt(es, dev, x)
           || (SlotAt(es[k := e], dev, x) == None && SlotAt(es, dev, x).Some? && Eligible(SlotAt(es, dev, x).value))
  {
    var e := Recycled(es[k], dev, b);
    var es' := es[k := e];
    assert UniqueKeys(es');
    SlotIs(es', dev, k);
    forall x: nat | x != b
      ensures || SlotAt(es', dev, x) == SlotAt(es, dev, x)
              || (SlotAt(es', dev, x) == None && SlotAt(es, dev, x).Some? && Eligible(SlotAt(es, dev, x).value))
    {
      var j := FindKey(es', dev, x);
      if j < |es| {
        assert es[j] == es'[j];
        SlotIs(es, dev, j);
      }
      var i := FindKey(es, dev, x);
      if i < |es| && i != k {
        assert es[i] == es'[i];
        SlotIs(es', dev, i);
      }
    }
  }

  lemma MoveSlot(es: seq<Entry>, dev: nat, i: nat)
    requires ListOk(es, dev) && i < |es|
    ensures ListOk(ToFront(es, i), dev)
    ensures forall b: nat :: SlotAt(ToFront(es, i), dev, b) == SlotAt(es, dev, b)
  {
    ToFrontKeys(es, i);
    ToFrontAt(es, i);
    var es' := ToFront(es, i);
    hide ToFront;
    forall k | 0 <= k < |es| ensures es[k] in es' {
      var p := if k == i then 0 else if k < i then k + 1 else k;
      assert Origin(i, p) == k;
    }
    forall b: nat ensures SlotAt(es', dev, b) == SlotAt(es, dev, b) {
      var j := FindKey(es', dev, b);
      if j < |es'| {
        SlotIs(es, dev, Origin(i, j));
      } else {
        assert forall e :: e in es' ==> !HasKey(e, dev, b);
      }
    }
  }

  // ---- counting -----------------------------------------------------------

  lemma {:induction false} BusyIn(es: seq<Entry>, b: nat)
    ensures b in Busy(es) <==> exists i :: 0 <= i < |es| && !Eligible(es[i]) && es[i].blockno == b
  {
    if es != [] {
      var n := |es| - 1;
      BusyIn(es[..n], b);
      if b in Busy(es[..n]) {
        var i :| 0 <= i < n && !Eligible(es[..n][i]) && es[..n][i].blockno == b;
        assert !Eligible(es[i]);
      }
      if i :| 0 <= i < |es| && !Eligible(es[i]) && es[i].blockno == b {
        if i < n { assert !Eligible(es[..n][i]); }
      }
    }
  }

  lemma BusyAt(es: seq<Entry>, dev: nat, b: nat)
    requires ListOk(es, dev)
    ensures b in Busy(es) <==> SlotAt(es, dev, b).Some? && !Eligible(SlotAt(es, dev, b).value)
  {
    BusyIn(es, b);
    if b in Busy(es) {
      var i :| 0 <= i < |es| && !Eligible(es[i]) && es[i].blockno == b;
      SlotIs(es, dev, i);
    }
  }

  /** The cache is exhausted exactly when as many blocks are busy as there are buffers. */
  lemma {:induction false} BusyCount(es: seq<Entry>, dev: nat)
    requires ListOk(es, dev)
    ensures |Busy(es)| == |es| <==> LastEligible(es) < 0
  {
    if es != [] {
      var n := |es| - 1;
      var p, e := es[..n], es[n];
      assert ListOk(p, dev);
      BusyCount(p, dev);
      BusyIn(p, e.blockno);
      assert !Eligible(e) ==> e.blockno !in Busy(p);
    }
  }
}
