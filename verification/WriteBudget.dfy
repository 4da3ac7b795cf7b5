/** The blocks one inode_write logs, and why the log has room for them. */
module WriteBudget {
  import opened Wrappers
  import opened Params
  import opened Bytes
  import opened Storage
  import opened DiskInode
  import opened InodeModel
  import opened InodeBytes
  import opened InodeTheorems
  import LogCore

  /** Data blocks passed to log_write, in order. */
  function Touched(bad: set<nat>, addrs: seq<nat>, off: nat, n: nat): seq<nat>
    decreases n
  {
    if n == 0 || !Usable(bad, addrs, off / BSIZE) then []
    else
      var m := Chunk(off, n);
      [addrs[off / BSIZE]] + Touched(bad, addrs, off + m, n - m)
  }

  /** Every block one inode_write passes to log_write. */
  function OpBlocks(bad: set<nat>, start: nat, ip: Inode, off: nat, n: nat): seq<nat> {
    Touched(bad, ip.d.addrs, off, n) + if BlockOf(start, ip.inum) in bad then [] else [BlockOf(start, ip.inum)]
  }

  lemma {:induction false} TouchedFew(bad: set<nat>, addrs: seq<nat>, off: nat, n: nat)
    ensures |Touched(bad, addrs, off, n)| * BSIZE <= off % BSIZE + n + BSIZE - 1
    ensures n == 0 ==> Touched(bad, addrs, off, n) == []
    decreases n
  {
    if n != 0 && Usable(bad, addrs, off / BSIZE) {
      var m := Chunk(off, n);
      ChunkEnds(off, n);
      TouchedFew(bad, addrs, off + m, n - m);
      if m < n {
        assert (off + m) % BSIZE == 0 && m == BSIZE - off % BSIZE;
      }
    }
  }

  lemma {:induction false} LoopChangesTouched(st: Disk, bad: set<nat>, addrs: seq<nat>, off: nat, src: seq<Byte>, b: nat)
    requires InDisk(st, addrs) && b < |st| && b !in Touched(bad, addrs, off, |src|)
    ensures WriteLoop(st, bad, addrs, off, src).0[b] == st[b]
    decreases |src|
  {
    if src != [] && Usable(bad, addrs, off / BSIZE) {
      var m := Chunk(off, |src|);
      WriteLoopNext(st, bad, addrs, off, src, m);
      assert b != addrs[off / BSIZE];
      assert b !in Touched(bad, addrs, off + m, |src| - m);
      LoopChangesTouched(PutChunk(st, addrs, off, src[..m]), bad, addrs, off + m, src[m..], b);
    }
  }

  /** Every block a write changes is one it logs. */
  lemma ChangesAreLogged(st: Disk, bad: set<nat>, start: nat, ip: Inode, off: nat, src: seq<Byte>, b: nat)
    requires Sound(st, start, ip) && off < UINT32 && |src| < UINT32 && b < |st|
    requires b !in OpBlocks(bad, start, ip, off, |src|)
    ensures |InodeWrite(st, bad, start, ip, off, src).st| == |st|
    ensures InodeWrite(st, bad, start, ip, off, src).st[b] == st[b]
  {
    LoopChangesTouched(st, bad, ip.d.addrs, off, src, b);
    hide WriteLoop, Touched, Sound;
  }

  const CHUNK: nat := (MAXOPBLOCKS - 1 - 1 - 2) / 2 * BSIZE

  /** What file_write hands to inode_write, at any offset, logs at most 4 data blocks and the inode's block. */
  lemma ChunkBudget(bad: set<nat>, start: nat, ip: Inode, off: nat, n: nat)
    requires n <= CHUNK
    ensures |Touched(bad, ip.d.addrs, off, n)| <= 4 && |OpBlocks(bad, start, ip, off, n)| <= 5
  {
    TouchedFew(bad, ip.d.addrs, off, n);
  }

  /** The log_write calls of operation `i`, in order. */
  function Calls(i: nat, bs: seq<nat>): (s: seq<LogCore.TxStep>)
    ensures |s| == |bs|
  {
    seq(|bs|, j requires 0 <= j < |bs| => LogCore.TWrite(i, bs[j]))
  }

  /** Room left to operation `i` for `k` more blocks. */
  predicate HasRoom(t: LogCore.Tx, i: nat, k: nat) { i < |t.ops| && |t.ops[i].logged| + k <= 9 }

  lemma {:induction false} CallsSucceed(t: LogCore.Tx, i: nat, bs: seq<nat>)
    requires LogCore.TxInv(9, t) && HasRoom(t, i, |bs|)
    ensures LogCore.RunTx(LOGSIZE, 9, t, Calls(i, bs)).Some?
    ensures var u := LogCore.RunTx(LOGSIZE, 9, t, Calls(i, bs)).value;
      (forall b :: b in bs ==> b in u.log.lh) && forall b :: b in t.log.lh ==> b in u.log.lh
    decreases |bs|
  {
    hide LogCore.TxInv;
    if bs != [] {
      var step := LogCore.TWrite(i, bs[0]);
      AddOne(t.ops[i].logged, bs[0]);
      var t' := LogCore.DoTx(LOGSIZE, 9, t, step).value;
      LogCore.WriteKeeps(LOGSIZE, 9, t, i, bs[0], t');
      assert Calls(i, bs)[0] == step && Calls(i, bs)[1..] == Calls(i, bs[1..]);
      CallsSucceed(t', i, bs[1..]);
      hide LogCore.DoTx;
    }
  }

  lemma AddOne(s: set<nat>, b: nat)
    ensures |s + {b}| <= |s| + 1
  {
    if b in s {
      assert s + {b} == s;
    }
  }

  /** One chunk of file_write as one operation of the log, in any state the log can be in: no log_write of it is
      refused, and every block the chunk changes is in the log afterwards. */
  lemma ChunkIsLogged(steps: seq<LogCore.TxStep>, t: LogCore.Tx, i: nat, st: Disk, bad: set<nat>, start: nat, ip: Inode, off: nat, src: seq<Byte>)
    requires LogCore.RunTx(LOGSIZE, 9, LogCore.NEW_TX, steps) == Some(t) && i < |t.ops| && t.ops[i].logged == {}
    requires Sound(st, start, ip) && off < UINT32 && |src| <= CHUNK
    ensures var u := LogCore.RunTx(LOGSIZE, 9, t, Calls(i, OpBlocks(bad, start, ip, off, |src|)));
      var r := InodeWrite(st, bad, start, ip, off, src);
      u.Some? && |r.st| == |st| && forall b :: 0 <= b < |st| && r.st[b] != st[b] ==> b in u.value.log.lh
  {
    var bs := OpBlocks(bad, start, ip, off, |src|);
    LogCore.RunKeeps(LOGSIZE, 9, LogCore.NEW_TX, steps);
    ChunkBudget(bad, start, ip, off, |src|);
    CallsSucceed(t, i, bs);
    hide LogCore.TxInv, LogCore.RunTx, OpBlocks, Calls, InodeWrite, Sound;
    StoreFrame(st, bad, start, ip, off, src);
    forall b | 0 <= b < |st| && b !in bs ensures InodeWrite(st, bad, start, ip, off, src).st[b] == st[b] {
      ChangesAreLogged(st, bad, start, ip, off, src, b);
    }
  }
}
