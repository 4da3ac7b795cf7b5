/** kernel/fs/log.c: struct log and its operations, over the linked buffer cache. */
module WriteAheadLog {
  import opened Params
  import opened Bytes
  import opened Storage
  import opened Recovery
  import opened LogCore
  import opened CacheModel
  import opened CacheMap
  import BufferCache
  import BlockLayer
  import M = CommitModel
  import F = CommitFacts
  import T = CommitTheorems
  import D = CommitDurable
  import S = CommitStarved

  class TransactionLog {
    const dev: BlockLayer.Device
    const start: nat
    const size: nat
    var outstanding: int
    var committing: bool
    var n: nat
    var block: array<nat>

    constructor (dev: BlockLayer.Device, block: array<nat>)
      requires block.Length == LOGSIZE && dev.Valid()
      ensures Valid() && View() == EMPTY_LOG && this.dev == dev && this.block == block
    {
      this.dev, this.block := dev, block;
      start, size := dev.env.lay.start, dev.env.lay.size;
      outstanding, committing, n := 0, false, 0;
    }

    ghost predicate Valid()
      reads this, dev, dev.cache, dev.cache.head, dev.cache.order
    {
      && dev.Valid() && n <= block.Length == LOGSIZE
      && dev.env.lay == Layout(start, size)
    }

    ghost function View(): Log
      reads this, block
      requires n <= block.Length
    {
      Log(block[..n], outstanding, committing)
    }

    /** One pass of log_begin_op's loop with the lock held; false: it sleeps and tries again. */
    method TryBeginOp() returns (admitted: bool)
      requires n <= block.Length
      modifies `outstanding
      ensures admitted == Admits(old(View()))
      ensures View() == if admitted then Begin(old(View())) else old(View())
    {
      if committing {
        return false;
      } else if n + (outstanding + 1) * MAXOPBLOCKS > LOGSIZE {
        return false;
      } else {
        outstanding := outstanding + 1;
        return true;
      }
    }

    /** The locked part of log_end_op; true: the caller must commit. */
    method EndOp() returns (doCommit: bool)
      requires n <= block.Length
      modifies `outstanding, `committing
      ensures View() == LogCore.EndOp(old(View()))
      ensures doCommit == (outstanding == 0)
    {
      doCommit := false;
      outstanding := outstanding - 1;
      if outstanding == 0 {
        doCommit := true;
        committing := true;
      }
    }

    /** log_write up to the pin; true: the block is new to the log. */
    method Record(blockno: nat) returns (appended: bool)
      requires n <= block.Length == LOGSIZE
      modifies `n, block
      ensures n <= block.Length && View() == LogCore.LogWrite(old(View()), size, blockno)
      ensures appended == (n > old(n))
    {
      if n >= LOGSIZE || n >= size - 1 {
        return false;
      }
      if outstanding < 1 {
        return false;
      }
      var i := FindSlot(blockno);
      block[i] := blockno;
      if i < n {
        assert block[..n] == old(block[..n]);
        return false;
      }
      n := n + 1;
      assert block[..n] == old(block[..n]) + [blockno];
      return true;
    }

    /** log_write */
    method LogWrite(b: BufferCache.Buf)
      requires Valid() && b in dev.cache.order
      modifies `n, block, b`refcnt
      ensures Valid() && View() == LogCore.LogWrite(old(View()), size, b.blockno)
      ensures dev.State() == if n > old(n) then M.BufPin(old(dev.State()), b.id) else old(dev.State())
    {
      ghost var p := dev.Position(b);
      var appended := Record(b.blockno);
      if appended {
        dev.cache.Pin(b, p);
      }
    }

    /** The absorption loop: the entry of this block, or n. */
    method FindSlot(blockno: nat) returns (i: nat)
      requires n <= block.Length
      ensures i <= n && (i < n ==> block[i] == blockno) && (i == n <==> blockno !in block[..n])
    {
      i := 0;
      while i < n
        invariant 0 <= i <= n
        invariant forall j :: 0 <= j < i ==> block[j] != blockno
      {
        if block[i] == blockno {
          break;
        }
        i := i + 1;
      }
    }
  
    // ---- commit and recovery, sequential -----------------------------------

    ghost predicate Ready()
      reads this, block, dev, dev.cache, dev.cache.head, dev.cache.order
    {
      Valid() && M.Addressable(dev.disk, dev.env.lay, block[..n])
    }

    /** write_head */
    method WriteHead() returns (stuck: bool)
      requires Valid() && start < |dev.disk|
      modifies dev`disk, dev`writes, dev.cache`order, dev.cache.head`next, dev.cache.head`prev, dev.cache.bufs
      ensures Valid()
      ensures var f := M.WriteHead(old(dev.State()), dev.env, block[..n]); stuck == f.Stuck? && dev.State() == f.st
    {
      hide M.FillBuf, M.BlockWrite, M.BlockRelease, M.DataOf, M.BlockRead, BufferCache.Ring, BufferCache.Linked,
        BufferCache.Cache.EntriesOf, BufferCache.Cache.Storage, UniqueIds, Pos, WithHeader;
      dev.Listed();
      var r, blocked := dev.BlockRead(start);
      if blocked {
        return true;
      }
      if r == null {
        return false;
      }
      dev.FillHeader(r, block, n);
      dev.BlockWrite(r);
      dev.BlockRelease(r);
      return false;
    }

    /** write_log */
    method WriteLog() returns (stuck: bool)
      requires Ready()
      modifies dev`disk, dev`writes, dev.cache`order, dev.cache.head`next, dev.cache.head`prev, dev.cache.bufs
      ensures Valid()
      ensures var f := M.WriteLog(old(dev.State()), dev.env, block[..n], 0); stuck == f.Stuck? && dev.State() == f.st
    {
      hide M.CopyBlock, M.WriteLog, M.Addressable, BufferCache.Ring, BufferCache.Linked, BufferCache.Cache.EntriesOf,
        BufferCache.Cache.Storage;
      ghost var lh, whole := block[..n], M.WriteLog(dev.State(), dev.env, block[..n], 0);
      var tail := 0;
      while tail < n
        invariant 0 <= tail <= n && Valid() && M.Addressable(dev.disk, dev.env.lay, lh)
        invariant whole == M.WriteLog(dev.State(), dev.env, lh, tail)
      {
        T.WriteLogTurn(dev.State(), dev.env, lh, tail);
        assert lh[tail] < |dev.disk| by { Target(dev.disk, lh, tail); }
        var s := dev.CopyIteration(start + tail + 1, block[tail], true, false);
        if s {
          return true;
        }
        tail := tail + 1;
      }
      assert whole == M.Next(dev.State()) by { T.LoopsEnd(dev.State(), dev.env, lh); }
      return false;
    }

    /** install_trans */
    method InstallTrans(recovering: bool) returns (stuck: bool)
      requires Ready()
      modifies dev`disk, dev`writes, dev.cache`order, dev.cache.head`next, dev.cache.head`prev, dev.cache.bufs
      ensures Valid()
      ensures var f := M.InstallTrans(old(dev.State()), dev.env, block[..n], 0, recovering);
        stuck == f.Stuck? && dev.State() == f.st
    {
      hide M.CopyBlock, M.InstallTrans, M.Addressable, BufferCache.Ring, BufferCache.Linked, BufferCache.Cache.EntriesOf,
        BufferCache.Cache.Storage;
      ghost var lh, whole := block[..n], M.InstallTrans(dev.State(), dev.env, block[..n], 0, recovering);
      var tail := 0;
      while tail < n
        invariant 0 <= tail <= n && Valid() && M.Addressable(dev.disk, dev.env.lay, lh)
        invariant whole == M.InstallTrans(dev.State(), dev.env, lh, tail, recovering)
      {
        T.InstallTurn(dev.State(), dev.env, lh, tail, recovering);
        assert lh[tail] < |dev.disk| by { Target(dev.disk, lh, tail); }
        var s := dev.CopyIteration(start + tail + 1, block[tail], false, !recovering);
        if s {
          return true;
        }
        tail := tail + 1;
      }
      assert whole == M.Next(dev.State()) by { T.LoopsEnd(dev.State(), dev.env, lh); }
      return false;
    }

    /** commit: afterwards the log is empty unless the process sleeps for ever on the way. With every logged block
        pinned it does so exactly when the slots do not all find a buffer; committing then stays set, so that
        TryBeginOp admits nobody any more. */
    method Commit() returns (stuck: bool)
      requires Ready()
      modifies `n, dev`disk, dev`writes, dev.cache`order, dev.cache.head`next, dev.cache.head`prev, dev.cache.bufs
      ensures Valid()
      ensures var f := M.Commit(old(dev.State()), dev.env, old(block[..n])); stuck == f.Stuck? && dev.State() == f.st
      ensures !stuck ==> View() == old(View()).(lh := [])
      ensures committing == old(committing)
      ensures T.Ready(old(dev.State()), dev.env, old(block[..n])) ==>
        (stuck <==> S.Overfull(old(dev.State()), dev.env, old(block[..n]), 0))
    {
      hide M.Commit, M.InstallTrans, M.WriteLog, M.WriteHead, BufferCache.Ring, BufferCache.Linked, BufferCache.Cache.EntriesOf,
        BufferCache.Cache.Storage, T.Ready, S.Overfull;
      ghost var lh := block[..n];
      S.SticksWhenReady(dev.State(), dev.env, lh);
      stuck := false;
      if n > 0 {
        T.CommitTurn(dev.State(), dev.env, lh);
        stuck := WriteLog();
        if stuck { return; }
        stuck := WriteHead();
        if stuck { return; }
        stuck := InstallTrans(false);
        if stuck { return; }
        n := 0;
        assert block[..n] == lh[..0];
        stuck := WriteHead();
      } else {
        T.EmptyCommit(dev.State(), dev.env);
      }
    }

    /** The part of recover_from_log after read_head. */
    method Replay() returns (stuck: bool)
      requires Ready()
      modifies `n, dev`disk, dev`writes, dev.cache`order, dev.cache.head`next, dev.cache.head`prev, dev.cache.bufs
      ensures Valid()
      ensures var f := T.RecoverFromLog(old(dev.State()), dev.env, old(block[..n])); stuck == f.Stuck? && dev.State() == f.st
      ensures !stuck ==> View() == old(View()).(lh := [])
    {
      hide M.InstallTrans, M.WriteHead, BufferCache.Ring, BufferCache.Linked;
      ghost var lh, s0 := block[..n], dev.State();
      stuck := InstallTrans(true);
      T.InstallCounts(s0, dev.env, lh, 0, true);
      if stuck { return; }
      n := 0;
      assert block[..n] == lh[..0];
      stuck := WriteHead();
    }

    /** read_head: the in-memory list becomes the one in the header block. The entries of a header that
        claims more blocks than the log holds would overrun the array. */
    method ReadHead() returns (stuck: bool, missing: bool)
      requires Valid() && start < |dev.disk|
      requires var r := M.BlockRead(dev.State(), dev.env, start);
        r.Loaded? ==> HeaderCount(M.DataOf(r.st, r.id)) <= LOGSIZE
      modifies `n, block, dev.cache`order, dev.cache.head`next, dev.cache.head`prev, dev.cache.bufs
      ensures Valid()
      ensures var r := M.BlockRead(old(dev.State()), dev.env, start);
        && stuck == r.Blocked? && missing == r.Null?
        && (r.Loaded? ==> block[..n] == HeaderBlocks(M.DataOf(r.st, r.id))
                          && dev.State() == M.BlockRelease(r.st, dev.env, r.id))
    {
      hide M.BlockRelease, M.BlockRead, M.DataOf, BufferCache.Ring, BufferCache.Linked, HeaderBlocks, HeaderCount;
      missing := false;
      dev.Listed();
      var r;
      r, stuck := dev.BlockRead(start);
      if stuck { return; }
      if r == null {
        missing := true;
        return;
      }
      dev.DataIs(r);
      TakeHeader(r);
    }

    method TakeHeader(r: BufferCache.Buf)
      requires Valid() && r in dev.cache.order && HeaderCount(r.data) <= LOGSIZE
      modifies `n, block, dev.cache`order, dev.cache.head`next, dev.cache.head`prev, dev.cache.order
      ensures Valid() && block[..n] == HeaderBlocks(old(r.data))
      ensures dev.State() == M.BlockRelease(old(dev.State()), dev.env, r.id)
    {
      LoadHeader(r.data);
      dev.BlockRelease(r);
    }

    /** The loop of read_head. */
    method LoadHeader(data: Block)
      requires block.Length == LOGSIZE && HeaderCount(data) <= LOGSIZE
      modifies `n, block
      ensures n <= block.Length && block[..n] == HeaderBlocks(data)
    {
      n := WordAt(data, 0);
      for i := 0 to n
        invariant n == HeaderCount(data)
        invariant forall j :: 0 <= j < i ==> block[j] == WordAt(data, 4 + 4 * j)
      {
        block[i] := WordAt(data, 4 + 4 * i);
      }
    }

    /** What the boot code hands over: no buffer in use, a sound log on disk that fits the cache. */
    ghost predicate AtBoot()
      reads this, dev, dev.cache, dev.cache.head, dev.cache.order
    {
      && Valid() && F.StoreOk(dev.State(), dev.env, {}) && Busy(dev.cache.View()) == {}
      && LogOk(dev.env.lay, dev.disk) && |HeaderBlocks(dev.disk[start])| < |dev.cache.View()|
    }

    /** read_head at boot. */
    method LoadList()
      requires AtBoot()
      modifies `n, block, dev.cache`order, dev.cache.head`next, dev.cache.head`prev, dev.cache.bufs
      ensures AtBoot() && block[..n] == HeaderBlocks(dev.disk[start])
      ensures dev.writes == old(dev.writes)
    {
      hide F.StoreOk, Busy, HeaderBlocks, HeaderCount, BufferCache.Ring, BufferCache.Linked, M.BlockRead, M.BlockRelease, M.DataOf,
        BufferCache.Cache.EntriesOf, BufferCache.Cache.Storage;
      D.ReadBack(dev.State(), dev.env, start);
      var stuck, missing := ReadHead();
    }

    /** recover_from_log: the disk becomes what Recovery.Recover makes of it, and the log is empty. */
    method RecoverFromLog() returns (stuck: bool)
      requires AtBoot()
      modifies `n, block, dev`disk, dev`writes, dev.cache`order, dev.cache.head`next, dev.cache.head`prev, dev.cache.bufs
      ensures Valid() && !stuck && View() == old(View()).(lh := [])
      ensures dev.disk == Recover(dev.env.lay, old(dev.disk)) && T.Quiet(dev.State(), dev.env)
    {
      hide F.StoreOk, Busy, HeaderBlocks, HeaderCount, BufferCache.Ring, BufferCache.Linked, T.RecoverFromLog, T.Quiet, Recover,
        BufferCache.Cache.EntriesOf, BufferCache.Cache.Storage;
      LoadList();
      D.RecoveryRestores(dev.State(), dev.env);
      stuck := Replay();
    }

    /** log_init, which reads the header once more than it needs to. */
    method Init() returns (stuck: bool)
      requires AtBoot()
      modifies this, block, dev`disk, dev`writes, dev.cache`order, dev.cache.head`next, dev.cache.head`prev, dev.cache.bufs
      ensures Valid() && !stuck && View() == EMPTY_LOG
      ensures dev.disk == Recover(dev.env.lay, old(dev.disk)) && T.Quiet(dev.State(), dev.env)
    {
      hide F.StoreOk, Busy, HeaderBlocks, HeaderCount, BufferCache.Ring, BufferCache.Linked, T.Quiet, Recover,
        BufferCache.Cache.EntriesOf, BufferCache.Cache.Storage;
      outstanding, committing := 0, false;
      LoadList();
      stuck := RecoverFromLog();
    }

    lemma Target(d: Disk, lh: seq<nat>, t: nat)
      requires M.Addressable(d, dev.env.lay, lh) && t < |lh|
      ensures lh[t] < |d|
    {
    }
  }
}
