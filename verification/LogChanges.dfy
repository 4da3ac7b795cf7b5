/** How an open operation changes a block, in place: block_read, overwrite, log_write, block_release
    (kernel/fs/inode.c:308-314). */
module LogChanges {
  import opened Params
  import opened Storage
  import opened Recovery
  import opened LogCore
  import opened CacheModel
  import BufferCache
  import BlockLayer
  import W = WriteAheadLog
  import M = CommitModel
  import G = CommitGroup

  /** The group after one more block, or the same one. */
  function GroupAfter(lay: Layout, lh: seq<nat>, b: nat, read: bool): seq<nat> {
    if read then G.Absorbed(lay, lh, b) else lh
  }

  method ChangeBlock(log: W.TransactionLog, b: nat, data: Block) returns (stuck: bool)
    requires log.Valid() && b < |log.dev.disk| && log.outstanding >= 1
    modifies log`n, log.block, log.dev.cache`order, log.dev.cache.head`next, log.dev.cache.head`prev, log.dev.cache.bufs
    ensures log.Valid()
    ensures var f := G.LogUpdate(old(log.dev.State()), log.dev.env, old(log.block[..log.n]), b, data);
      stuck == f.Stuck? && log.dev.State() == f.st
    ensures log.block[..log.n] ==
      GroupAfter(log.dev.env.lay, old(log.block[..log.n]), b, M.BlockRead(old(log.dev.State()), log.dev.env, b).Loaded?)
  {
    hide M.FillBuf, M.BlockRelease, M.BlockRead, M.BufPin, BufferCache.Ring, BufferCache.Linked, BufferCache.Cache.EntriesOf,
      BufferCache.Cache.Storage, UniqueIds, Pos, G.Absorbed;
    log.dev.Listed();
    var r;
    r, stuck := log.dev.BlockRead(b);
    if stuck || r == null {
      return;
    }
    LogChange(log, r, data);
  }

  /** The rest of it, with the buffer in hand. */
  method LogChange(log: W.TransactionLog, r: BufferCache.Buf, data: Block)
    requires log.Valid() && r in log.dev.cache.order && log.outstanding >= 1
    modifies log`n, log.block, log.dev.cache`order, log.dev.cache.head`next, log.dev.cache.head`prev, log.dev.cache.order
    ensures log.Valid() && log.block[..log.n] == G.Absorbed(log.dev.env.lay, old(log.block[..log.n]), old(r.blockno))
    ensures var f := M.FillBuf(old(log.dev.State()), r.id, data);
      log.dev.State() ==
        M.BlockRelease(if |log.block[..log.n]| > |old(log.block[..log.n])| then M.BufPin(f, r.id) else f, log.dev.env, r.id)
  {
    hide M.FillBuf, M.BlockRelease, M.BufPin, BufferCache.Ring, BufferCache.Linked, BufferCache.Cache.EntriesOf,
      BufferCache.Cache.Storage, UniqueIds, Pos, LogWrite, G.Absorbed;
    G.AbsorbedIn(log.dev.env.lay, log.View(), r.blockno);
    log.dev.Overwrite(r, data);
    log.LogWrite(r);
    log.dev.BlockRelease(r);
  }
}
