/** The buffer cache as the kernel builds it: a circular doubly linked list through a sentinel
    (kernel/fs/buffer.c). Every method is proved against the list functions of CacheModel. */
module BufferCache {
  import opened Params
  import opened Storage
  import opened LogCore
  import opened CacheModel

  class Buf {
    const id: nat
    var dev: nat
    var blockno: nat
    var refcnt: nat
    var valid: bool
    var dirty: bool
    var owner: nat
    var data: Block
    var prev: Buf
    var next: Buf

    constructor (id: nat, data: Block)
      ensures this.id == id && View() == Entry(id, 0, 0, 0, false, false, 0, data)
    {
      this.id, dev, blockno, refcnt, valid, dirty, owner := id, 0, 0, 0, false, false, 0;
      this.data, prev, next := data, this, this;
    }

    function View(): Entry
      reads `dev, `blockno, `refcnt, `valid, `dirty, `owner, `data
    {
      Entry(id, dev, blockno, refcnt, valid, dirty, owner, data)
    }
  }

  /** Node `i` of the ring; the sentinel stands at -1 and after the last buffer. */
  function Nth(head: Buf, order: seq<Buf>, i: int): Buf {
    if 0 <= i < |order| then order[i] else head
  }

  ghost predicate Linked(head: Buf, order: seq<Buf>, i: int)
    reads head`next, head`prev, order`next, order`prev
  {
    Nth(head, order, i).next == Nth(head, order, i + 1) && Nth(head, order, i + 1).prev == Nth(head, order, i)
  }

  /** A circular doubly linked list of distinct buffers. */
  ghost predicate Ring(head: Buf, order: seq<Buf>)
    reads head`next, head`prev, order`next, order`prev
  {
    && head !in order
    && (forall i, j :: 0 <= i < j < |order| ==> order[i] != order[j])
    && (forall i :: -1 <= i < |order| ==> Linked(head, order, i))
  }

  class Cache {
    const head: Buf
    const bufs: seq<Buf>
    ghost var order: seq<Buf>

    ghost predicate Storage() {
      && head !in bufs
      && (forall i :: 0 <= i < |bufs| ==> bufs[i].id == i)
    }

    ghost predicate Valid()
      reads `order, head`next, head`prev, order`next, order`prev
    {
      && Storage() && Ring(head, order) && |order| == |bufs|
      && (forall i :: 0 <= i < |order| ==> order[i].id < |bufs| && bufs[order[i].id] == order[i])
    }

    function EntriesOf(s: seq<Buf>): (es: seq<Entry>)
      reads s
      ensures |es| == |s| && forall i :: 0 <= i < |s| ==> es[i] == s[i].View()
    {
      seq(|s|, i requires 0 <= i < |s| reads s => s[i].View())
    }

    /** The list the ring stands for, most recently used first. */
    ghost function View(): (es: seq<Entry>)
      reads this, order
      ensures |es| == |order| && forall i :: 0 <= i < |order| ==> es[i] == order[i].View()
    {
      EntriesOf(order)
    }

    /** All buffers as static storage leaves them. */
    ghost predicate Zeroed(blank: Block)
      reads bufs
    {
      forall i :: 0 <= i < |bufs| ==> bufs[i].View() == Entry(i, 0, 0, 0, false, false, 0, blank)
    }

    /** Static storage: the sentinel and NBUF zeroed buffers, not linked yet. */
    constructor (head: Buf, bufs: seq<Buf>)
      requires head !in bufs && forall i :: 0 <= i < |bufs| ==> bufs[i].id == i
      ensures this.head == head && this.bufs == bufs && Storage()
    {
      this.head, this.bufs, order := head, bufs, [];
    }

    /** Insert an unlinked buffer right after the sentinel. */
    method PushFront(b: Buf)
      requires Ring(head, order) && b != head && b !in order
      modifies this`order, head`next, b`prev, b`next, head.next`prev
      ensures order == [b] + old(order) && Ring(head, order)
    {
      b.next := head.next;
      b.prev := head;
      head.next.prev := b;
      head.next := b;
      order := [b] + order;
      forall i | -1 <= i < |order| ensures Linked(head, order, i) {
        assert old(Linked(head, order, -1));
        if i >= 1 {
          assert old(Linked(head, order, i - 1));
        }
      }
    }
  
    /** Take the buffer at position `i` out of the ring. */
    method Unlink(b: Buf, ghost i: nat)
      requires Ring(head, order) && i < |order| && b == order[i]
      modifies this`order, b.next`prev, b.prev`next
      ensures order == Without(old(order), i) && Ring(head, order)
    {
      assert Linked(head, order, i - 1) && Linked(head, order, i);
      b.next.prev := b.prev;
      b.prev.next := b.next;
      order := Without(order, i);
      forall j | -1 <= j < |order| ensures Linked(head, order, j) {
        assert old(Linked(head, order, j)) && old(Linked(head, order, j + 1));
      }
    }

    /** The loop of buf_cache_init: every buffer in front of the earlier ones, nothing else about it changed. */
    method LinkAll()
      requires Storage() && order == [] && (forall i, j :: 0 <= i < j < |bufs| ==> bufs[i] != bufs[j])
      modifies this`order, head`next, head`prev, bufs`next, bufs`prev
      ensures Ring(head, order) && |order| == |bufs| && forall i :: 0 <= i < |bufs| ==> order[i] == bufs[|bufs| - 1 - i]
    {
      head.prev := head;
      head.next := head;
      assert Linked(head, order, -1);
      for k := 0 to |bufs|
        invariant Ring(head, order) && |order| == k
        invariant forall i :: 0 <= i < k ==> order[i] == bufs[k - 1 - i]
      {
        assert forall i :: 0 <= i < k ==> order[i] in bufs;
        assert Linked(head, order, -1);
        PushFront(bufs[k]);
      }
    }

    /** buf_cache_init */
    method Init()
      requires Storage() && order == [] && (forall i, j :: 0 <= i < j < |bufs| ==> bufs[i] != bufs[j])
      modifies this`order, head`next, head`prev, bufs`next, bufs`prev
      ensures Valid() && forall i :: 0 <= i < |bufs| ==> order[i] == bufs[|bufs| - 1 - i]
      ensures forall blank :: Zeroed(blank) ==> View() == InitialList(blank, |bufs|)
    {
      hide Ring, Linked;
      LinkAll();
    }

    /** First loop of buf_get: from the sentinel forward, looking for the key. */
    method FindBlock(dev: nat, blockno: nat) returns (b: Buf, ghost i: nat)
      requires Valid()
      ensures i == FindKey(View(), dev, blockno) && b == Nth(head, order, i)
      ensures b != head ==> b.dev == dev && b.blockno == blockno
    {
      b := head.next;
      i := 0;
      assert Linked(head, order, -1);
      while b != head
        invariant 0 <= i <= |order| && b == Nth(head, order, i)
        invariant forall j :: 0 <= j < i ==> !HasKey(View()[j], dev, blockno)
        decreases |order| - i
      {
        if b.dev == dev && b.blockno == blockno {
          assert HasKey(View()[i], dev, blockno);
          return;
        }
        assert Linked(head, order, i);
        b := b.next;
        i := i + 1;
      }
    }

    /** Second loop of buf_get: from the sentinel backward, looking for a buffer to recycle. */
    method FindVictim() returns (b: Buf, ghost i: int)
      requires Valid()
      ensures i == LastEligible(View()) && b == Nth(head, order, i)
    {
      b := head.prev;
      i := |order| - 1;
      assert Linked(head, order, |order| - 1);
      while b != head
        invariant -1 <= i < |order| && b == Nth(head, order, i)
        invariant forall j :: i < j < |order| ==> !Eligible(View()[j])
        decreases i
      {
        if b.refcnt == 0 && !b.dirty {
          assert Eligible(View()[i]);
          return;
        }
        assert Linked(head, order, i - 1);
        b := b.prev;
        i := i - 1;
      }
    }

    /** Hand the slot at position `k` to another block: flags cleared, one reference. */
    method Recycle(v: Buf, dev: nat, blockno: nat, ghost k: nat)
      requires Valid() && k < |order| && v == order[k]
      modifies v`dev, v`blockno, v`valid, v`dirty, v`refcnt
      ensures Valid() && View() == old(View())[k := Recycled(old(View())[k], dev, blockno)]
    {
      v.dev := dev;
      v.blockno := blockno;
      v.valid, v.dirty := false, false;
      v.refcnt := 1;
    }

    /** The locked part of buf_get: null when every buffer is referenced or dirty. */
    method Get(dev: nat, blockno: nat) returns (r: Buf?)
      requires Valid()
      modifies order
      ensures Valid() && order == old(order)
      ensures r != null ==> r in order && r.dev == dev && r.blockno == blockno
      ensures match CacheModel.Get(old(View()), dev, blockno)
        case Got(es, id) => r != null && r.id == id && View() == es
        case Exhausted => r == null && View() == old(View())
    {
      hide Ring, Linked, FindKey, LastEligible, Eligible, HasKey;
      var b, i := FindBlock(dev, blockno);
      if b != head {
        Pin(b, i);
        return b;
      }
      var v, k := FindVictim();
      if v != head {
        Recycle(v, dev, blockno, k);
        return v;
      }
      return null;
    }

    lemma EntriesToFront(o: seq<Buf>, i: nat)
      requires i < |o|
      ensures EntriesOf([o[i]] + Without(o, i)) == ToFront(EntriesOf(o), i)
    {
    }

    /** sleeplock_release and the decrement in buf_release. */
    method Drop(b: Buf, ghost i: nat)
      requires Valid() && i < |order| && b == order[i]
      modifies b`owner, b`refcnt
      ensures Valid() && View() == old(View())[i := old(View())[i].(owner := 0, refcnt := Dec(old(b.refcnt)))]
    {
      b.owner := 0;
      b.refcnt := Dec(b.refcnt);
    }

    /** buf_release by process `pid`. */
    method Release(b: Buf, pid: nat, ghost i: nat)
      requires Valid() && i < |order| && b == order[i]
      modifies `order, head`next, head`prev, order
      ensures Valid() && (order == old(order) || order == [b] + Without(old(order), i))
      ensures View() == CacheModel.Release(old(View()), i, pid)
    {
      if b.owner == 0 || b.owner != pid {
        return;
      }
      Drop(b, i);
      if b.refcnt == 0 {
        ghost var o := order;
        ghost var es := EntriesOf(o);
        MoveToFront(b, i);
        assert EntriesOf(o) == es;
        EntriesToFront(o, i);
      }
    }

    /** The relinking done by buf_release when the last reference goes. */
    method MoveToFront(b: Buf, ghost i: nat)
      requires Valid() && i < |order| && b == order[i]
      modifies `order, order`next, order`prev, head`next, head`prev
      ensures Valid() && order == [b] + Without(old(order), i)
    {
      ghost var o := order;
      assert Linked(head, order, i - 1) && Linked(head, order, i);
      assert (b.next == head || b.next in o) && (b.prev == head || b.prev in o);
      Unlink(b, i);
      assert Linked(head, order, -1);
      assert head.next == head || head.next in o;
      PushFront(b);
    }

    method Pin(b: Buf, ghost i: nat)
      requires Valid() && i < |order| && b == order[i]
      modifies b`refcnt
      ensures Valid() && order == old(order) && View() == CacheModel.Pin(old(View()), i)
    {
      b.refcnt := Inc(b.refcnt);
    }

    method Unpin(b: Buf, ghost i: nat)
      requires Valid() && i < |order| && b == order[i]
      modifies b`refcnt
      ensures Valid() && order == old(order) && View() == CacheModel.Unpin(old(View()), i)
    {
      b.refcnt := Dec(b.refcnt);
    }
  }
}
