/** kernel/fs/inode.c, reads and writes: byte ranges over blocks. The store is the flat disk that the cache and
    the log present; `bad` holds the blocks for which block_read returns NULL during the call. */
module InodeModel {
  import opened Params
  import opened Bytes
  import opened Storage
  import opened DiskInode

  const REACH: nat := NADDR * BSIZE

  datatype Inode = Inode(inum: nat, d: Dinode)

  function Min(a: nat, b: nat): nat { if a < b then a else b }
  function Max(a: nat, b: nat): nat { if a < b then b else a }

  /** The loops go on through entry `k`. */
  predicate Usable(bad: set<nat>, addrs: seq<nat>, k: nat) { k < |addrs| && addrs[k] != 0 && addrs[k] !in bad }

  predicate InDisk(st: Disk, addrs: seq<nat>) { forall k :: 0 <= k < |addrs| ==> addrs[k] < |st| }

  function Chunk(off: nat, n: nat): nat { Min(BSIZE - off % BSIZE, n) }

  /** The loop of inode_read. */
  function ReadLoop(st: Disk, bad: set<nat>, addrs: seq<nat>, off: nat, n: nat): seq<Byte>
    requires InDisk(st, addrs)
    decreases n
  {
    if n == 0 || !Usable(bad, addrs, off / BSIZE) then []
    else
      var m := Chunk(off, n);
      st[addrs[off / BSIZE]][off % BSIZE..off % BSIZE + m] + ReadLoop(st, bad, addrs, off + m, n - m)
  }

  function PutChunk(st: Disk, addrs: seq<nat>, off: nat, src: seq<Byte>): (r: Disk)
    requires off / BSIZE < |addrs| && InDisk(st, addrs) && off % BSIZE + |src| <= BSIZE
    ensures |r| == |st|
  {
    var a := addrs[off / BSIZE];
    st[a := Patch(st[a], off % BSIZE, src)]
  }

  /** The loop of inode_write: the store, and how many bytes went in. */
  function WriteLoop(st: Disk, bad: set<nat>, addrs: seq<nat>, off: nat, src: seq<Byte>): (r: (Disk, nat))
    requires InDisk(st, addrs)
    ensures |r.0| == |st| && r.1 <= |src|
    decreases |src|
  {
    if src == [] || !Usable(bad, addrs, off / BSIZE) then (st, 0)
    else
      var m := Chunk(off, |src|);
      var r := WriteLoop(PutChunk(st, addrs, off, src[..m]), bad, addrs, off + m, src[m..]);
      (r.0, m + r.1)
  }

  /** How far a transfer of `n` bytes from `off` gets. */
  function Span(bad: set<nat>, addrs: seq<nat>, off: nat, n: nat): (t: nat)
    ensures t <= n
    decreases n
  {
    if n == 0 || !Usable(bad, addrs, off / BSIZE) then 0
    else
      var m := Chunk(off, n);
      m + Span(bad, addrs, off + m, n - m)
  }

  /** The transfer reaches entry 13 of the 13 with bytes still to move: the source then indexes past `addrs`. */
  predicate Overruns(bad: set<nat>, addrs: seq<nat>, off: nat, n: nat) {
    var t := Span(bad, addrs, off, n);
    t < n && (off + t) / BSIZE >= |addrs|
  }

  /** inode_update. */
  function Update(st: Disk, bad: set<nat>, start: nat, ip: Inode): (r: Disk)
    requires BlockOf(start, ip.inum) < |st| && |ip.d.addrs| == NADDR
    ensures |r| == |st|
  {
    if BlockOf(start, ip.inum) in bad then st else Save(st, start, ip.inum, ip.d)
  }

  datatype Written = Written(ret: int, st: Disk, ip: Inode)

  /** inode_write, offsets and counts being 32-bit. */
  function InodeWrite(st: Disk, bad: set<nat>, start: nat, ip: Inode, off: nat, src: seq<Byte>): Written
    requires InDisk(st, ip.d.addrs) && BlockOf(start, ip.inum) < |st| && |ip.d.addrs| == NADDR
  {
    if off > ip.d.size || (off + |src|) % UINT32 < off then Written(-1, st, ip)
    else if (off + |src|) % UINT32 > MAXFILE * BSIZE then Written(-1, st, ip)
    else
      var r := WriteLoop(st, bad, ip.d.addrs, off, src);
      var ip' := if off + r.1 > ip.d.size then ip.(d := ip.d.(size := off + r.1)) else ip;
      Written(r.1, Update(r.0, bad, start, ip'), ip')
  }

  datatype Fetched = Fetched(ret: int, bytes: seq<Byte>)

  /** inode_read. */
  function InodeRead(st: Disk, bad: set<nat>, ip: Inode, off: nat, n: nat): Fetched
    requires InDisk(st, ip.d.addrs)
  {
    if off > ip.d.size || (off + n) % UINT32 < off then Fetched(-1, [])
    else
      var s := ReadLoop(st, bad, ip.d.addrs, off, if (off + n) % UINT32 > ip.d.size then ip.d.size - off else n);
      Fetched(|s|, s)
  }

  // ---- how far a transfer gets --------------------------------------------

  lemma ChunkStaysInBlock(off: nat, n: nat, p: nat)
    requires n > 0 && off <= p < off + Chunk(off, n)
    ensures p / BSIZE == off / BSIZE && p % BSIZE == off % BSIZE + (p - off)
  {
  }

  lemma ChunkEnds(off: nat, n: nat)
    requires n > 0
    ensures 0 < Chunk(off, n) <= n && off % BSIZE + Chunk(off, n) <= BSIZE
    ensures Chunk(off, n) == n || (off + Chunk(off, n)) % BSIZE == 0
  {
  }

  /** A transfer moves bytes up to the first block it cannot use, and stops short only there. */
  lemma {:induction false} SpanIs(bad: set<nat>, addrs: seq<nat>, off: nat, n: nat)
    ensures var t := Span(bad, addrs, off, n);
      && (forall p :: off <= p < off + t ==> Usable(bad, addrs, p / BSIZE))
      && (t < n ==> !Usable(bad, addrs, (off + t) / BSIZE) && (t == 0 || (off + t) % BSIZE == 0))
    decreases n
  {
    if n > 0 && Usable(bad, addrs, off / BSIZE) {
      var m := Chunk(off, n);
      ChunkEnds(off, n);
      SpanIs(bad, addrs, off + m, n - m);
      hide Usable, Chunk, Span;
      forall p | off <= p < off + m ensures Usable(bad, addrs, p / BSIZE) {
        ChunkStaysInBlock(off, n, p);
      }
    }
  }

  /** When exactly the source runs off the end of `addrs`: the range goes past the 13 blocks and every entry
      from the first block on can be used. The bound it checks instead is 140 blocks. */
  lemma OverrunsIff(bad: set<nat>, addrs: seq<nat>, off: nat, n: nat)
    requires |addrs| == NADDR && off <= REACH
    ensures Overruns(bad, addrs, off, n) <==> off + n > REACH && forall k: nat :: off / BSIZE <= k < NADDR ==> Usable(bad, addrs, k)
  {
    SpanIs(bad, addrs, off, n);
    var t := Span(bad, addrs, off, n);
    hide Span, Usable;
    if Overruns(bad, addrs, off, n) {
      forall k: nat | off / BSIZE <= k < NADDR ensures Usable(bad, addrs, k) {
        var p := Max(off, k * BSIZE);
        PositionIn(off, k);
        assert Usable(bad, addrs, p / BSIZE);
      }
    } else if off + n > REACH && (forall k: nat :: off / BSIZE <= k < NADDR ==> Usable(bad, addrs, k)) {
      assert off / BSIZE <= (off + t) / BSIZE;
      assert t == n;
      StopsInside(bad, addrs, off, n, off + n - 1);
      assert false;
    }
  }

  lemma PositionIn(off: nat, k: nat)
    requires off / BSIZE <= k < NADDR
    ensures off <= Max(off, k * BSIZE) < REACH && Max(off, k * BSIZE) / BSIZE == k
  {
  }

  lemma StopsInside(bad: set<nat>, addrs: seq<nat>, off: nat, n: nat, p: nat)
    requires |addrs| == NADDR && Span(bad, addrs, off, n) == n && off <= p < off + n
    ensures p < REACH
  {
    SpanIs(bad, addrs, off, n);
    assert Usable(bad, addrs, p / BSIZE);
  }
}
