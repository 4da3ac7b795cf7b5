/** Reads and writes as bytes of a file. */
module InodeBytes {
  import opened Params
  import opened Bytes
  import opened Storage
  import opened DiskInode
  import opened InodeModel

  /** Entry `k` names a block of the disk. */
  predicate Mapped(st: Disk, addrs: seq<nat>, k: nat) { k < |addrs| && addrs[k] != 0 && addrs[k] < |st| }

  /** Byte `p` of the file with these blocks. */
  function ByteAt(st: Disk, addrs: seq<nat>, p: nat): Byte
    requires Mapped(st, addrs, p / BSIZE)
  {
    st[addrs[p / BSIZE]][p % BSIZE]
  }

  /** No block has two places in the file. */
  ghost predicate Separate(addrs: seq<nat>) {
    forall i, j :: 0 <= i < j < |addrs| && addrs[i] != 0 ==> addrs[i] != addrs[j]
  }

  /** `st2` is `st` with the bytes `w` at offset `off` of the file, and nothing else changed. */
  ghost predicate Wrote(st: Disk, st2: Disk, addrs: seq<nat>, off: nat, w: seq<Byte>) {
    && |st2| == |st|
    && (forall b :: 0 <= b < |st| && (b == 0 || b !in addrs) ==> st2[b] == st[b])
    && (forall p: nat :: Mapped(st, addrs, p / BSIZE) ==>
          ByteAt(st2, addrs, p) == if off <= p < off + |w| then w[p - off] else ByteAt(st, addrs, p))
  }

  lemma WroteNothing(st: Disk, addrs: seq<nat>, off: nat, w: seq<Byte>)
    requires w == []
    ensures Wrote(st, st, addrs, off, w)
  {
  }

  lemma WroteThen(st: Disk, st1: Disk, st2: Disk, addrs: seq<nat>, off: nat, w1: seq<Byte>, w2: seq<Byte>)
    requires Wrote(st, st1, addrs, off, w1) && Wrote(st1, st2, addrs, off + |w1|, w2)
    ensures Wrote(st, st2, addrs, off, w1 + w2)
  {
    forall p: nat | Mapped(st, addrs, p / BSIZE)
      ensures ByteAt(st2, addrs, p) == if off <= p < off + |w1 + w2| then (w1 + w2)[p - off] else ByteAt(st, addrs, p)
    {
      assert Mapped(st1, addrs, p / BSIZE);
    }
  }

  lemma BlockByte(k: nat, i: nat)
    requires i < BSIZE
    ensures (k * BSIZE + i) / BSIZE == k && (k * BSIZE + i) % BSIZE == i
  {
  }

  /** Two stores written the same way are the same store. */
  lemma WroteSame(st: Disk, st1: Disk, st2: Disk, addrs: seq<nat>, off: nat, w: seq<Byte>)
    requires Wrote(st, st1, addrs, off, w) && Wrote(st, st2, addrs, off, w)
    ensures st1 == st2
  {
    forall b | 0 <= b < |st| ensures st1[b] == st2[b] {
      if b != 0 && b in addrs {
        var k: nat :| k < |addrs| && addrs[k] == b;
        forall i: nat | i < BSIZE ensures st1[b][i] == st2[b][i] {
          BlockByte(k, i);
          assert Mapped(st, addrs, (k * BSIZE + i) / BSIZE);
          assert ByteAt(st1, addrs, k * BSIZE + i) == ByteAt(st2, addrs, k * BSIZE + i);
        }
      }
    }
  }

  lemma PutChunkWrites(st: Disk, addrs: seq<nat>, off: nat, src: seq<Byte>)
    requires Separate(addrs) && InDisk(st, addrs) && Mapped(st, addrs, off / BSIZE) && off % BSIZE + |src| <= BSIZE
    ensures Wrote(st, PutChunk(st, addrs, off, src), addrs, off, src)
  {
    var st2 := PutChunk(st, addrs, off, src);
    var k := off / BSIZE;
    forall p: nat | Mapped(st, addrs, p / BSIZE)
      ensures ByteAt(st2, addrs, p) == if off <= p < off + |src| then src[p - off] else ByteAt(st, addrs, p)
    {
      if p / BSIZE == k {
        SameBlock(off, p);
      } else {
        OtherBlock(off, p, |src|);
        assert addrs[p / BSIZE] != addrs[k];
      }
    }
  }

  lemma SameBlock(off: nat, p: nat)
    requires p / BSIZE == off / BSIZE
    ensures p % BSIZE - off % BSIZE == p - off
  {
  }

  lemma OtherBlock(off: nat, p: nat, n: nat)
    requires p / BSIZE != off / BSIZE && off % BSIZE + n <= BSIZE
    ensures !(off <= p < off + n)
  {
  }

  lemma WriteLoopNext(st: Disk, bad: set<nat>, addrs: seq<nat>, off: nat, src: seq<Byte>, m: nat)
    requires InDisk(st, addrs) && src != [] && Usable(bad, addrs, off / BSIZE) && m == Chunk(off, |src|)
    ensures 0 < m <= |src| && off % BSIZE + m <= BSIZE
    ensures var r := WriteLoop(PutChunk(st, addrs, off, src[..m]), bad, addrs, off + m, src[m..]);
      WriteLoop(st, bad, addrs, off, src) == (r.0, m + r.1)
    ensures Span(bad, addrs, off, |src|) == m + Span(bad, addrs, off + m, |src| - m)
  {
    ChunkEnds(off, |src|);
  }

  lemma WriteLoopStops(st: Disk, bad: set<nat>, addrs: seq<nat>, off: nat, src: seq<Byte>)
    requires InDisk(st, addrs) && (src == [] || !Usable(bad, addrs, off / BSIZE))
    ensures WriteLoop(st, bad, addrs, off, src) == (st, 0) && Span(bad, addrs, off, |src|) == 0
  {
  }

  /** The writing loop puts the first bytes of its source at the offset, as many as the transfer gets. */
  lemma {:induction false} WriteLoopWrites(st: Disk, bad: set<nat>, addrs: seq<nat>, off: nat, src: seq<Byte>)
    requires Separate(addrs) && InDisk(st, addrs)
    ensures var r := WriteLoop(st, bad, addrs, off, src);
      r.1 == Span(bad, addrs, off, |src|) && r.1 <= |src| && Wrote(st, r.0, addrs, off, src[..r.1])
    decreases |src|
  {
    hide Wrote, Separate, WriteLoop, Span, PutChunk, Chunk;
    if src == [] || !Usable(bad, addrs, off / BSIZE) {
      WriteLoopStops(st, bad, addrs, off, src);
      WroteNothing(st, addrs, off, src[..0]);
    } else {
      var m := Chunk(off, |src|);
      WriteLoopNext(st, bad, addrs, off, src, m);
      PutChunkWrites(st, addrs, off, src[..m]);
      var st1 := PutChunk(st, addrs, off, src[..m]);
      WroteSize(st, st1, addrs, off, src[..m]);
      WriteLoopWrites(st1, bad, addrs, off + m, src[m..]);
      var r := WriteLoop(st1, bad, addrs, off + m, src[m..]);
      WroteThen(st, st1, r.0, addrs, off, src[..m], src[m..][..r.1]);
      assert src[..m + r.1] == src[..m] + src[m..][..r.1];
    }
  }

  lemma WroteSize(st: Disk, st2: Disk, addrs: seq<nat>, off: nat, w: seq<Byte>)
    requires Wrote(st, st2, addrs, off, w) && InDisk(st, addrs)
    ensures InDisk(st2, addrs) && |st2| == |st|
  {
  }

  /** `r` is what the file holds from `off`. */
  ghost predicate Reads(st: Disk, addrs: seq<nat>, off: nat, r: seq<Byte>) {
    forall p: nat :: off <= p < off + |r| ==> Mapped(st, addrs, p / BSIZE) && r[p - off] == ByteAt(st, addrs, p)
  }

  lemma ReadsThen(st: Disk, addrs: seq<nat>, off: nat, r1: seq<Byte>, r2: seq<Byte>)
    requires Reads(st, addrs, off, r1) && Reads(st, addrs, off + |r1|, r2)
    ensures Reads(st, addrs, off, r1 + r2)
  {
    hide Mapped, ByteAt;
  }

  lemma ChunkReads(st: Disk, bad: set<nat>, addrs: seq<nat>, off: nat, n: nat)
    requires InDisk(st, addrs) && n != 0 && Usable(bad, addrs, off / BSIZE)
    ensures off % BSIZE + Chunk(off, n) <= BSIZE
    ensures Reads(st, addrs, off, st[addrs[off / BSIZE]][off % BSIZE..off % BSIZE + Chunk(off, n)])
  {
    ChunkEnds(off, n);
    hide Chunk;
    var m := Chunk(off, n);
    forall p: nat | off <= p < off + m ensures p / BSIZE == off / BSIZE && p % BSIZE == off % BSIZE + (p - off) {
      ChunkStaysInBlock(off, n, p);
    }
  }

  /** The reading loop returns the file's bytes from the offset. */
  lemma {:induction false} ReadLoopReads(st: Disk, bad: set<nat>, addrs: seq<nat>, off: nat, n: nat)
    requires InDisk(st, addrs)
    ensures var r := ReadLoop(st, bad, addrs, off, n);
      |r| == Span(bad, addrs, off, n) && Reads(st, addrs, off, r)
    decreases n
  {
    if n != 0 && Usable(bad, addrs, off / BSIZE) {
      var m := Chunk(off, n);
      ChunkReads(st, bad, addrs, off, n);
      ReadLoopReads(st, bad, addrs, off + m, n - m);
      hide Chunk, Reads;
      ReadsThen(st, addrs, off, st[addrs[off / BSIZE]][off % BSIZE..off % BSIZE + m], ReadLoop(st, bad, addrs, off + m, n - m));
    }
  }

  // ---- whole files --------------------------------------------------------

  /** The inode's size never passes its first missing block, its blocks are its own, and its inode block is no
      data block of it. */
  ghost predicate Sound(st: Disk, start: nat, ip: Inode) {
    && Fits(ip.d) && InDisk(st, ip.d.addrs) && Separate(ip.d.addrs)
    && BlockOf(start, ip.inum) < |st| && BlockOf(start, ip.inum) != 0 && BlockOf(start, ip.inum) !in ip.d.addrs
    && Covered(ip.d.addrs, ip.d.size)
  }

  ghost predicate Covered(addrs: seq<nat>, size: nat) {
    size <= REACH && forall k: nat :: k * BSIZE < size && k < |addrs| ==> addrs[k] != 0
  }

  lemma CoveredByte(addrs: seq<nat>, size: nat, p: nat)
    requires |addrs| == NADDR && Covered(addrs, size) && p < size
    ensures p / BSIZE < NADDR && addrs[p / BSIZE] != 0
  {
    assert p / BSIZE * BSIZE < size;
  }

  lemma SoundByte(st: Disk, start: nat, ip: Inode, p: nat)
    requires Sound(st, start, ip) && p < ip.d.size
    ensures Mapped(st, ip.d.addrs, p / BSIZE)
  {
    CoveredByte(ip.d.addrs, ip.d.size, p);
  }

  /** The content of the file. */
  ghost function FileBytes(st: Disk, start: nat, ip: Inode): (s: seq<Byte>)
    requires Sound(st, start, ip)
    ensures |s| == ip.d.size
    ensures forall p: nat :: p < |s| ==> Mapped(st, ip.d.addrs, p / BSIZE) && s[p] == ByteAt(st, ip.d.addrs, p)
  {
    var f := (p: nat) requires p < ip.d.size => (SoundByte(st, start, ip, p); ByteAt(st, ip.d.addrs, p));
    seq(ip.d.size, f)
  }

  /** `s` with `w` put at `off`, growing if it must. */
  function Splice(s: seq<Byte>, off: nat, w: seq<Byte>): (r: seq<Byte>)
    requires off <= |s|
    ensures |r| == Max(|s|, off + |w|)
    ensures forall i :: 0 <= i < |r| ==> r[i] == if off <= i < off + |w| then w[i - off] else s[i]
  {
    s[..off] + w + if off + |w| < |s| then s[off + |w|..] else []
  }
}
