/** block_read, block_write and block_release on the linked cache and the disk (kernel/fs/block.c), run by one
    process. Every method is proved against the functions of CommitModel. */
module BlockLayer {
  import opened Params
  import opened Bytes
  import opened Storage
  import opened Recovery
  import opened LogCore
  import opened CacheModel
  import BufferCache
  import M = CommitModel

  /** The same buffers, perhaps in another order. */
  ghost predicate SameBuffers(o: seq<BufferCache.Buf>, o': seq<BufferCache.Buf>) {
    (forall j :: 0 <= j < |o| ==> o[j] in o') && (forall j :: 0 <= j < |o'| ==> o'[j] in o)
  }

  lemma MovedBuffers(o: seq<BufferCache.Buf>, i: nat)
    requires i < |o|
    ensures SameBuffers(o, [o[i]] + Without(o, i))
  {
    var o' := [o[i]] + Without(o, i);
    forall j | 0 <= j < |o| ensures o[j] in o' {
      assert o'[if j == i then 0 else if j < i then j + 1 else j] == o[j];
    }
  }

  lemma FillIs(st: M.Store, i: nat, id: nat, data: Block)
    requires i < |st.es| && i == Pos(st.es, id)
    ensures M.FillBuf(st, id, data) == st.(es := st.es[i := st.es[i].(data := data)])
  {
  }

  lemma DataIsAt(st: M.Store, i: nat, id: nat)
    requires i < |st.es| && i == Pos(st.es, id)
    ensures M.DataOf(st, id) == st.es[i].data
  {
  }

  /** block_write of the buffer at position `i`. */
  lemma WriteIs(st: M.Store, env: M.Env, i: nat, id: nat)
    requires i < |st.es| && i == Pos(st.es, id)
    ensures var e := st.es[i];
      M.BlockWrite(st, env, id) ==
        if e.owner == 0 || e.owner != env.pid || e.blockno >= |st.disk| then st
        else M.Store(st.es[i := e.(valid := true, dirty := true)], st.disk[e.blockno := e.data],
                     st.writes + [Write(e.blockno, e.data)])
  {
  }

  class Device {
    const cache: BufferCache.Cache
    const env: M.Env
    var disk: Disk
    ghost var writes: seq<Write>

    constructor (cache: BufferCache.Cache, env: M.Env, disk: Disk)
      ensures this.cache == cache && this.env == env && this.disk == disk && writes == []
    {
      this.cache, this.env, this.disk, writes := cache, env, disk, [];
    }

    ghost predicate Valid()
      reads this, cache, cache.head, cache.order
    {
      cache.Valid()
    }

    ghost function State(): M.Store
      reads this, cache, cache.order
    {
      M.Store(cache.View(), disk, writes)
    }

    /** Where buffer `b` stands in the list. */
    lemma Position(b: BufferCache.Buf) returns (i: nat)
      requires Valid() && b in cache.order
      ensures i < |cache.order| && cache.order[i] == b && i == Pos(cache.View(), b.id) && UniqueIds(cache.View())
    {
      i :| 0 <= i < |cache.order| && cache.order[i] == b;
      var es := cache.View();
      assert UniqueIds(es);
      PosOf(es, i);
    }

    /** sleeplock_acquire on a free lock, and the load from disk when the buffer is not valid. */
    method LockAndLoad(r: BufferCache.Buf, b: nat, ghost i: nat)
      requires Valid() && b < |disk| && i < |cache.order| && cache.order[i] == r && r.owner == 0
      modifies r`owner, r`data, r`valid
      ensures Valid()
      ensures var e := old(cache.View())[i];
        var e' := if e.valid then e else e.(valid := true, data := disk[b]);
        cache.View() == old(cache.View())[i := e'.(owner := env.pid)]
    {
      r.owner := env.pid;
      if !r.valid {
        r.data := disk[b];
        r.valid := true;
      }
    }

    method BlockRead(b: nat) returns (r: BufferCache.Buf?, blocked: bool)
      requires Valid() && b < |disk|
      modifies cache.order
      ensures Valid() && cache.order == old(cache.order)
      ensures r != null ==> r.blockno == b
      ensures match M.BlockRead(old(State()), env, b)
        case Loaded(st, id) => !blocked && r != null && r in cache.order && r.id == id && State() == st
        case Null => !blocked && r == null && State() == old(State())
        case Blocked(st) => blocked && State() == st
    {
      blocked := false;
      r := cache.Get(env.dev, b);
      if r == null {
        return;
      }
      ghost var i := Position(r);
      if r.owner != 0 {
        blocked := true;
        return;
      }
      LockAndLoad(r, b, i);
    }

    method BlockWrite(r: BufferCache.Buf)
      requires Valid() && r in cache.order
      modifies this`disk, this`writes, r`valid, r`dirty
      ensures Valid() && State() == M.BlockWrite(old(State()), env, r.id)
    {
      hide BufferCache.Ring, BufferCache.Linked, UniqueIds, M.BlockWrite, Pos;
      ghost var i := Position(r);
      WriteIs(State(), env, i, r.id);
      if r.owner == 0 || r.owner != env.pid || r.blockno >= |disk| {
        return;
      }
      MarkWritten(r, i);
      disk := disk[r.blockno := r.data];
      writes := writes + [Write(r.blockno, r.data)];
    }

    /** B_DIRTY set by block_write, B_VALID set again when the disk is done; B_DIRTY stays. */
    method MarkWritten(r: BufferCache.Buf, ghost i: nat)
      requires Valid() && i < |cache.order| && cache.order[i] == r
      modifies r`valid, r`dirty
      ensures Valid() && cache.View() == old(cache.View())[i := old(cache.View())[i].(valid := true, dirty := true)]
    {
      r.dirty := true;
      r.valid := true;
    }

    method BlockRelease(r: BufferCache.Buf)
      requires Valid() && r in cache.order
      modifies cache`order, cache.head`next, cache.head`prev, cache.order
      ensures Valid() && State() == M.BlockRelease(old(State()), env, r.id)
      ensures SameBuffers(old(cache.order), cache.order)
    {
      ghost var i := Position(r);
      ghost var o := cache.order;
      cache.Release(r, env.pid, i);
      if cache.order != o {
        MovedBuffers(o, i);
      }
    }

    method BufUnpin(r: BufferCache.Buf)
      requires Valid() && r in cache.order
      modifies r`refcnt
      ensures Valid() && State() == M.BufUnpin(old(State()), r.id)
    {
      ghost var i := Position(r);
      cache.Unpin(r, i);
    }

    /** The byte loop of write_log and install_trans. */
    method MoveBytes(dst: BufferCache.Buf, src: BufferCache.Buf)
      modifies dst`data
      ensures dst.data == old(src.data)
    {
      ghost var data := src.data;
      for k := 0 to BSIZE
        invariant forall x :: 0 <= x < k ==> dst.data[x] == data[x]
        invariant forall x :: k <= x < BSIZE ==> src.data[x] == data[x]
      {
        dst.data := dst.data[k := src.data[k]];
      }
      assert dst.data == data;
    }

    method CopyBytes(dst: BufferCache.Buf, src: BufferCache.Buf)
      requires Valid() && dst in cache.order && src in cache.order
      modifies dst`data
      ensures Valid() && State() == M.FillBuf(old(State()), dst.id, M.DataOf(old(State()), src.id))
    {
      hide BufferCache.Ring, BufferCache.Linked, UniqueIds, M.FillBuf, M.DataOf, Pos;
      ghost var i := Position(dst);
      ghost var j := Position(src);
      FillIs(State(), i, dst.id, src.data);
      DataIsAt(State(), j, src.id);
      MoveBytes(dst, src);
      assert cache.View() == old(cache.View())[i := dst.View()];
    }

    /** The caller overwrites a block it holds. */
    method Overwrite(r: BufferCache.Buf, data: Block)
      requires Valid() && r in cache.order
      modifies r`data
      ensures Valid() && State() == M.FillBuf(old(State()), r.id, data)
    {
      ghost var i := Position(r);
      r.data := data;
      assert cache.View() == old(cache.View())[i := r.View()];
    }

    lemma DataIs(r: BufferCache.Buf)
      requires Valid() && r in cache.order
      ensures M.DataOf(State(), r.id) == r.data
    {
      var i := Position(r);
    }

    /** Every listed buffer is one of the static ones. */
    lemma Listed()
      requires Valid()
      ensures forall b :: b in cache.order ==> b in cache.bufs
    {
    }

    /** One iteration of write_log or install_trans; true: asleep for ever on a lock. */
    method CopyIteration(first: nat, second: nat, toFirst: bool, unpin: bool) returns (stuck: bool)
      requires Valid() && first < |disk| && second < |disk|
      modifies `disk, `writes, cache`order, cache.head`next, cache.head`prev, cache.bufs
      ensures Valid()
      ensures var f := M.CopyBlock(old(State()), env, first, second, toFirst, unpin);
        stuck == f.Stuck? && State() == f.st
    {
      hide M.BlockRead, M.CopyTail, BufferCache.Ring, BufferCache.Linked;
      Listed();
      var a, blocked := BlockRead(first);
      if blocked {
        return true;
      }
      var b;
      b, blocked := BlockRead(second);
      if blocked {
        return true;
      }
      if a == null || b == null {
        return false;
      }
      if toFirst {
        CopyTail(b, a, unpin);
      } else {
        CopyTail(a, b, unpin);
      }
      return false;
    }

    method CopyTail(src: BufferCache.Buf, tgt: BufferCache.Buf, unpin: bool)
      requires Valid() && src in cache.order && tgt in cache.order
      modifies this`disk, this`writes, cache`order, cache.head`next, cache.head`prev, cache.order
      ensures Valid()
      ensures SameBuffers(old(cache.order), cache.order)
      ensures State() == M.CopyTail(old(State()), env, src.id, tgt.id, unpin)
    {
      hide M.FillBuf, M.BlockWrite, M.BufUnpin, M.BlockRelease, M.DataOf, BufferCache.Ring, BufferCache.Linked,
        BufferCache.Cache.EntriesOf, BufferCache.Cache.Storage;
      CopyBytes(tgt, src);
      BlockWrite(tgt);
      if unpin {
        BufUnpin(tgt);
      }
      BlockRelease(src);
      BlockRelease(tgt);
    }

    /** Overwrite the count and the entries of the header block held in `r`. */
    method FillHeader(r: BufferCache.Buf, block: array<nat>, n: nat)
      requires Valid() && r in cache.order && n <= block.Length && n <= LOGSIZE
      modifies r`data
      ensures Valid() && State() == M.FillBuf(old(State()), r.id, WithHeader(M.DataOf(old(State()), r.id), block[..n]))
    {
      ghost var i := Position(r);
      var h := EncodeHeader(r.data, block, n);
      r.data := h;
      assert cache.View() == old(cache.View())[i := r.View()];
    }
  }

  /** The count, then one entry per iteration. */
  method EncodeHeader(d: Block, block: array<nat>, n: nat) returns (h: Block)
    requires n <= block.Length && n <= LOGSIZE
    ensures h == WithHeader(d, block[..n])
  {
    h := Patch(d, 0, ToLe(n, 4));
    assert ToLe(n, 4) + Words(block[..0]) == ToLe(n, 4);
    for k := 0 to n
      invariant h == Patch(d, 0, ToLe(n, 4) + Words(block[..k]))
    {
      PatchAppend(d, ToLe(n, 4) + Words(block[..k]), ToLe(block[k], 4));
      h := Patch(h, 4 + 4 * k, ToLe(block[k], 4));
      assert block[..k + 1][..k] == block[..k];
      assert ToLe(n, 4) + Words(block[..k + 1]) == ToLe(n, 4) + Words(block[..k]) + ToLe(block[k], 4);
    }
  }

  lemma PatchAppend(d: seq<Byte>, a: seq<Byte>, b: seq<Byte>)
    requires |a| + |b| <= |d|
    ensures Patch(Patch(d, 0, a), |a|, b) == Patch(d, 0, a + b)
  {
  }
}
