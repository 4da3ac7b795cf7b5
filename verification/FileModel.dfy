/** kernel/fs/file.c: file_read and file_write on inode files, calls not interleaved. */
module FileModel {
  import opened Params
  import opened Bytes
  import opened Storage
  import opened DiskInode
  import opened InodeModel
  import opened InodeBytes
  import opened InodeTheorems
  import opened WriteBudget

  /** The store, the file's inode, and f->off. */
  datatype Open = Open(st: Disk, ip: Inode, off: nat)

  predicate Shape(start: nat, f: Open) {
    InDisk(f.st, f.ip.d.addrs) && BlockOf(start, f.ip.inum) < |f.st| && |f.ip.d.addrs| == NADDR
  }

  function Gain(ret: int): nat { if ret > 0 then ret else 0 }

  /** One transaction of file_write. */
  function WriteChunk(f: Open, bad: set<nat>, start: nat, src: seq<Byte>): (r: (Open, int))
    requires Shape(start, f)
    ensures |r.0.st| == |f.st| && r.0.ip.d.addrs == f.ip.d.addrs && r.0.ip.inum == f.ip.inum && Shape(start, r.0)
  {
    var w := InodeWrite(f.st, bad, start, f.ip, f.off, src);
    (Open(w.st, w.ip, (f.off + Gain(w.ret)) % UINT32), w.ret)
  }

  function ChunkOf(src: seq<Byte>, i: nat): seq<Byte>
    requires i <= |src|
  {
    src[i..i + Min(CHUNK, |src| - i)]
  }

  /** The loop of file_write from byte `i`; `bads(i)` are the blocks that cannot be read during the chunk at `i`. */
  function WriteChunks(f: Open, bads: nat -> set<nat>, start: nat, src: seq<Byte>, i: nat): (r: (Open, nat))
    requires Shape(start, f) && i <= |src|
    ensures i <= r.1 <= |src| && Shape(start, r.0)
    decreases |src| - i
  {
    if i == |src| then (f, i)
    else
      var c := ChunkOf(src, i);
      var w := WriteChunk(f, bads(i), start, c);
      if w.1 != |c| then (w.0, i) else WriteChunks(w.0, bads, start, src, i + |c|)
  }

  /** file_write on a writable inode file; a negative count writes nothing and fails. */
  function FileWrite(f: Open, bads: nat -> set<nat>, start: nat, src: seq<Byte>, n: int): (r: (Open, int))
    requires Shape(start, f) && (n < 0 || n == |src|)
  {
    if n < 0 then (f, -1)
    else
      var w := WriteChunks(f, bads, start, src, 0);
      (w.0, if w.1 == n then n else -1)
  }

  /** file_read on a readable inode file; the count is taken as 32-bit. */
  function FileRead(f: Open, bad: set<nat>, n: int): (r: (Open, Fetched))
    requires InDisk(f.st, f.ip.d.addrs)
  {
    var g := InodeRead(f.st, bad, f.ip, f.off, n % UINT32);
    (f.(off := (f.off + Gain(g.ret)) % UINT32), g)
  }

  // ---- what a stretch of writing did ---------------------------------------

  /** `g` is `f` with `w` written at its offset, and the offset moved past it; the inode's own block aside,
      nothing else changed. */
  ghost predicate Advanced(start: nat, f: Open, g: Open, w: seq<Byte>) {
    && |g.st| == |f.st| && g.off == f.off + |w|
    && g.ip == f.ip.(d := f.ip.d.(size := if w == [] then f.ip.d.size else Max(f.ip.d.size, f.off + |w|)))
    && (forall b :: 0 <= b < |f.st| && (b == 0 || b !in f.ip.d.addrs) && b != BlockOf(start, f.ip.inum) ==> g.st[b] == f.st[b])
    && (forall p: nat :: Mapped(f.st, f.ip.d.addrs, p / BSIZE) ==>
          ByteAt(g.st, f.ip.d.addrs, p) == if f.off <= p < f.off + |w| then w[p - f.off] else ByteAt(f.st, f.ip.d.addrs, p))
  }

  lemma AdvancedThen(start: nat, f: Open, g: Open, h: Open, w1: seq<Byte>, w2: seq<Byte>)
    requires Advanced(start, f, g, w1) && Advanced(start, g, h, w2)
    ensures Advanced(start, f, h, w1 + w2)
  {
    var addrs := f.ip.d.addrs;
    hide BlockOf;
    forall p: nat | Mapped(f.st, addrs, p / BSIZE)
      ensures ByteAt(h.st, addrs, p) == if f.off <= p < f.off + |w1 + w2| then (w1 + w2)[p - f.off] else ByteAt(f.st, addrs, p)
    {
      assert Mapped(g.st, addrs, p / BSIZE);
    }
  }

  lemma AdvancedBytes(start: nat, f: Open, g: Open, w: seq<Byte>)
    requires Advanced(start, f, g, w) && Sound(f.st, start, f.ip) && Sound(g.st, start, g.ip) && f.off <= f.ip.d.size
    ensures FileBytes(g.st, start, g.ip) == Splice(FileBytes(f.st, start, f.ip), f.off, w)
  {
    var a, b := FileBytes(g.st, start, g.ip), FileBytes(f.st, start, f.ip);
    hide FileBytes, Sound;
    forall p: nat | p < |a| ensures a[p] == Splice(b, f.off, w)[p] {
      assert a[p] == ByteAt(g.st, f.ip.d.addrs, p);
    }
  }

  /** No chunk of the range makes inode_write run past `addrs`. */
  ghost predicate Inside(addrs: seq<nat>, off: nat, n: nat) {
    off + n <= REACH || exists k: nat :: off / BSIZE <= k < |addrs| && addrs[k] == 0
  }

  lemma InsideNext(bad: set<nat>, addrs: seq<nat>, off: nat, m: nat, n: nat)
    requires |addrs| == NADDR && Inside(addrs, off, n) && m <= n && Span(bad, addrs, off, m) == m
    ensures Inside(addrs, off + m, n - m)
  {
    if off + n > REACH {
      var k: nat :| off / BSIZE <= k < |addrs| && addrs[k] == 0;
      if k < (off + m) / BSIZE {
        PassedOver(bad, addrs, off, m, k);
      }
    }
  }

  lemma PassedOver(bad: set<nat>, addrs: seq<nat>, off: nat, m: nat, k: nat)
    requires |addrs| == NADDR && Span(bad, addrs, off, m) == m && off / BSIZE <= k < (off + m) / BSIZE && k < NADDR
    ensures addrs[k] != 0
  {
    SpanIs(bad, addrs, off, m);
    hide Span;
    PositionIn(off, k);
    assert Usable(bad, addrs, Max(off, k * BSIZE) / BSIZE);
  }

  lemma InsideStays(bad: set<nat>, addrs: seq<nat>, off: nat, m: nat, n: nat)
    requires |addrs| == NADDR && Inside(addrs, off, n) && m <= n && off <= REACH
    ensures !Overruns(bad, addrs, off, m)
  {
    OverrunsIff(bad, addrs, off, m);
    hide Overruns;
    if off + n > REACH {
      var k: nat :| off / BSIZE <= k < |addrs| && addrs[k] == 0;
      assert !Usable(bad, addrs, k);
    }
  }

  lemma AdvancedFrom(start: nat, f: Open, mid: Disk, g: Open, w: seq<Byte>)
    requires InodeBytes.Wrote(f.st, mid, f.ip.d.addrs, f.off, w) && |g.st| == |f.st| && g.off == f.off + |w|
    requires g.ip == f.ip.(d := f.ip.d.(size := Max(f.ip.d.size, f.off + |w|))) && f.off <= f.ip.d.size
    requires BlockOf(start, f.ip.inum) !in f.ip.d.addrs
    requires forall b :: 0 <= b < |f.st| && b != BlockOf(start, f.ip.inum) ==> g.st[b] == mid[b]
    ensures Advanced(start, f, g, w)
  {
    hide BlockOf;
    SameBlocks(mid, g.st, f.ip.d.addrs, BlockOf(start, f.ip.inum));
  }

  lemma ChunkAccepted(f: Open, bad: set<nat>, start: nat, c: seq<Byte>)
    requires Shape(start, f) && Sound(f.st, start, f.ip) && f.off <= f.ip.d.size && f.off < UINT32 && |c| < UINT32
    requires InodeWrite(f.st, bad, start, f.ip, f.off, c).ret != -1
    ensures var r := WriteChunk(f, bad, start, c);
      && Sound(r.0.st, start, r.0.ip) && 0 <= r.1 <= |c| && r.0.off <= r.0.ip.d.size
      && Advanced(start, f, r.0, c[..r.1]) && r.1 == Span(bad, f.ip.d.addrs, f.off, |c|)
  {
    hide Update, Span, Advanced, InodeBytes.Wrote, Sound, WriteLoop, Load, Save, InodeWrite, BlockOf;
    var r := InodeWrite(f.st, bad, start, f.ip, f.off, c);
    var mid := WriteParts(f.st, bad, start, f.ip, f.off, c);
    SoundAfter(f.st, bad, start, f.ip, f.off, c);
    SoundParts(f.st, start, f.ip);
    SoundParts(r.st, start, r.ip);
    UpdateFrame(mid, bad, start, r.ip);
    SpanWithin(bad, f.ip.d.addrs, f.off, |c|);
    AdvancedFrom(start, f, mid, WriteChunk(f, bad, start, c).0, c[..r.ret]);
  }

  lemma SpanWithin(bad: set<nat>, addrs: seq<nat>, off: nat, n: nat)
    ensures Span(bad, addrs, off, n) <= n
  {
  }

  lemma SoundParts(st: Disk, start: nat, ip: Inode)
    requires Sound(st, start, ip)
    ensures Fits(ip.d) && BlockOf(start, ip.inum) < |st| && BlockOf(start, ip.inum) !in ip.d.addrs
    ensures ip.d.size <= REACH && ip.d.size < UINT32 && InDisk(st, ip.d.addrs)
  {
  }

  lemma AdvancedNone(start: nat, f: Open)
    ensures Advanced(start, f, f, [])
  {
  }

  /** One chunk within the file: what it wrote is the prefix of the chunk its return value counts. */
  lemma ChunkWrote(f: Open, bad: set<nat>, start: nat, c: seq<Byte>)
    requires Shape(start, f) && Sound(f.st, start, f.ip) && f.off <= f.ip.d.size && |c| < UINT32
    ensures var r := WriteChunk(f, bad, start, c);
      && Sound(r.0.st, start, r.0.ip) && r.1 <= |c| && r.0.off <= r.0.ip.d.size
      && Advanced(start, f, r.0, c[..Gain(r.1)])
      && (r.1 == |c| ==> Span(bad, f.ip.d.addrs, f.off, |c|) == |c|)
  {
    hide Sound, Advanced, Span;
    SoundParts(f.st, start, f.ip);
    WriteRefused(f.st, bad, start, f.ip, f.off, c);
    if InodeWrite(f.st, bad, start, f.ip, f.off, c).ret != -1 {
      ChunkAccepted(f, bad, start, c);
    } else {
      AdvancedNone(start, f);
    }
  }
}
