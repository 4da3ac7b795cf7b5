/** commit() run alone over the real cache: what block_read returning NULL does to it.
    (kernel/fs/block.c:23-54, kernel/fs/log.c:184-245) */
module CommitModel {
  import opened Params
  import opened Storage
  import opened Recovery
  import opened LogCore
  import opened CacheModel

  /** Cache, disk, and the block writes issued so far. */
  datatype Store = Store(es: seq<Entry>, disk: Disk, writes: seq<Write>)

  /** The process running the commit, its device and log area. */
  datatype Env = Env(dev: nat, pid: nat, lay: Layout)

  /** Null: no buffer. Blocked: the buffer's sleep lock is held and nobody will free it. */
  datatype ReadResult = Loaded(st: Store, id: nat) | Null | Blocked(st: Store)

  function BlockRead(st: Store, env: Env, b: nat): ReadResult
    requires b < |st.disk|
  {
    match Get(st.es, env.dev, b)
    case Exhausted => Null
    case Got(es, id) =>
      var i := Pos(es, id);
      if i == |es| then Null
      else if es[i].owner != 0 then Blocked(st.(es := es))
      else
        var e := if es[i].valid then es[i] else es[i].(valid := true, data := st.disk[b]);
        Loaded(st.(es := es[i := e.(owner := env.pid)]), id)
  }

  function FillBuf(st: Store, id: nat, data: Block): Store {
    var i := Pos(st.es, id);
    if i == |st.es| then st else st.(es := st.es[i := st.es[i].(data := data)])
  }

  function BlockWrite(st: Store, env: Env, id: nat): Store {
    var i := Pos(st.es, id);
    if i == |st.es| || st.es[i].owner == 0 || st.es[i].owner != env.pid || st.es[i].blockno >= |st.disk| then st
    else
      var e := st.es[i];
      Store(st.es[i := e.(valid := true, dirty := true)], st.disk[e.blockno := e.data],
            st.writes + [Write(e.blockno, e.data)])
  }

  function BlockRelease(st: Store, env: Env, id: nat): Store {
    var i := Pos(st.es, id);
    if i == |st.es| then st else st.(es := Release(st.es, i, env.pid))
  }

  function BufUnpin(st: Store, id: nat): Store {
    var i := Pos(st.es, id);
    if i == |st.es| then st else st.(es := Unpin(st.es, i))
  }

  function BufPin(st: Store, id: nat): Store {
    var i := Pos(st.es, id);
    if i == |st.es| then st else st.(es := Pin(st.es, i))
  }

  function DataOf(st: Store, id: nat): Block {
    var i := Pos(st.es, id);
    if i == |st.es| then seq(BSIZE, _ => 0) else st.es[i].data
  }

  /** The rest of the loop, or a process asleep for ever. */
  datatype Flow = Next(st: Store) | Stuck(st: Store)

  /** Both buffers in hand: copy `src` over `tgt`, write it, unpin it if asked, release `src`, then `tgt`. */
  function CopyTail(st: Store, env: Env, src: nat, tgt: nat, unpin: bool): Store {
    var w := BlockWrite(FillBuf(st, tgt, DataOf(st, src)), env, tgt);
    var u := if unpin then BufUnpin(w, tgt) else w;
    BlockRelease(BlockRelease(u, env, src), env, tgt)
  }

  /** One iteration of write_log (copy `second` over `first`) or install_trans (the other way round). A failed
      read skips the iteration and keeps whatever the other read returned, lock and reference included. */
  function CopyBlock(st: Store, env: Env, first: nat, second: nat, toFirst: bool, unpin: bool): Flow
    requires first < |st.disk| && second < |st.disk|
  {
    match BlockRead(st, env, first)
    case Blocked(s1) => Stuck(s1)
    case Null =>
      (match BlockRead(st, env, second)
       case Blocked(s2) => Stuck(s2)
       case Null => Next(st)
       case Loaded(s2, _) => Next(s2))
    case Loaded(s1, a) =>
      (match BlockRead(s1, env, second)
       case Blocked(s2) => Stuck(s2)
       case Null => Next(s1)
       case Loaded(s2, b) => Next(if toFirst then CopyTail(s2, env, b, a, unpin) else CopyTail(s2, env, a, b, unpin)))
  }

  /** write_head: nothing at all happens when the header block cannot be read. */
  function WriteHead(st: Store, env: Env, blocks: seq<nat>): Flow
    requires env.lay.start < |st.disk| && |blocks| <= LOGSIZE
  {
    match BlockRead(st, env, env.lay.start)
    case Blocked(s) => Stuck(s)
    case Null => Next(st)
    case Loaded(s, id) =>
      Next(BlockRelease(BlockWrite(FillBuf(s, id, WithHeader(DataOf(s, id), blocks)), env, id), env, id))
  }

  predicate Addressable(d: Disk, lay: Layout, lh: seq<nat>) {
    Fits(lay, d) && |lh| <= LOGSIZE && |lh| < lay.size && forall i :: 0 <= i < |lh| ==> lh[i] < |d|
  }

  /** write_log from iteration `t` on. */
  function WriteLog(st: Store, env: Env, lh: seq<nat>, t: nat): Flow
    requires Addressable(st.disk, env.lay, lh)
    decreases |lh| - t
  {
    if t >= |lh| then Next(st)
    else
      var f := CopyBlock(st, env, env.lay.Slot(t), lh[t], true, false);
      if f.Next? && |f.st.disk| == |st.disk| then WriteLog(f.st, env, lh, t + 1) else f
  }

  /** install_trans from iteration `t` on. */
  function InstallTrans(st: Store, env: Env, lh: seq<nat>, t: nat, recovering: bool): Flow
    requires Addressable(st.disk, env.lay, lh)
    decreases |lh| - t
  {
    if t >= |lh| then Next(st)
    else
      var f := CopyBlock(st, env, env.lay.Slot(t), lh[t], false, !recovering);
      if f.Next? && |f.st.disk| == |st.disk| then InstallTrans(f.st, env, lh, t + 1, recovering) else f
  }

  /** commit */
  function Commit(st: Store, env: Env, lh: seq<nat>): Flow
    requires Addressable(st.disk, env.lay, lh)
  {
    if lh == [] then Next(st)
    else
      var f1 := WriteLog(st, env, lh, 0);
      if f1.Stuck? || |f1.st.disk| != |st.disk| then f1
      else
        var f2 := WriteHead(f1.st, env, lh);
        if f2.Stuck? || |f2.st.disk| != |st.disk| then f2
        else
          var f3 := InstallTrans(f2.st, env, lh, 0, false);
          if f3.Stuck? || |f3.st.disk| != |st.disk| then f3 else WriteHead(f3.st, env, lh[..0])
  }
}
