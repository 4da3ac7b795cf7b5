/** What inode_read and inode_write promise of a file's content. */
module InodeTheorems {
  import opened Params
  import opened Bytes
  import opened Storage
  import opened DiskInode
  import opened InodeModel
  import opened InodeBytes

  /** A write is refused, with nothing changed, exactly when it starts past the end or could pass 140 blocks;
      the 32-bit sum never hides one that should be. */
  lemma WriteRefused(st: Disk, bad: set<nat>, start: nat, ip: Inode, off: nat, src: seq<Byte>)
    requires Sound(st, start, ip) && off < UINT32 && |src| < UINT32
    ensures var r := InodeWrite(st, bad, start, ip, off, src);
      && (r.ret == -1 <==> off > ip.d.size || off + |src| > MAXFILE * BSIZE)
      && (r.ret == -1 ==> r == Written(-1, st, ip))
  {
    SumWraps(off, |src|);
    hide WriteLoop;
  }

  lemma SumWraps(off: nat, n: nat)
    requires off < UINT32 && n < UINT32
    ensures (off + n) % UINT32 < off <==> off + n >= UINT32
    ensures off + n < UINT32 ==> (off + n) % UINT32 == off + n
  {
  }

  /** The file grows over blocks the transfer went through, so the size stays short of the first missing one. */
  lemma CoveredAfter(bad: set<nat>, addrs: seq<nat>, size: nat, off: nat, n: nat)
    requires |addrs| == NADDR && Covered(addrs, size) && off <= size
    ensures Covered(addrs, Max(size, off + Span(bad, addrs, off, n)))
  {
    var t := Span(bad, addrs, off, n);
    SpanIs(bad, addrs, off, n);
    hide Span;
    if t > 0 {
      assert Usable(bad, addrs, (off + t - 1) / BSIZE);
      forall k: nat | k * BSIZE < off + t && k < |addrs| ensures addrs[k] != 0 {
        if k * BSIZE >= size {
          assert Usable(bad, addrs, k * BSIZE / BSIZE);
        }
      }
    }
  }

  /** The bytes a file is made of do not depend on blocks outside it. */
  lemma SameBlocks(st: Disk, st2: Disk, addrs: seq<nat>, b: nat)
    requires |st2| == |st| && b !in addrs && forall c :: 0 <= c < |st| && c != b ==> st2[c] == st[c]
    ensures forall p: nat :: Mapped(st, addrs, p / BSIZE) ==> ByteAt(st2, addrs, p) == ByteAt(st, addrs, p)
  {
  }

  lemma UpdateFrame(st: Disk, bad: set<nat>, start: nat, ip: Inode)
    requires BlockOf(start, ip.inum) < |st| && Fits(ip.d)
    ensures var st2 := Update(st, bad, start, ip);
      && (forall b :: 0 <= b < |st| && b != BlockOf(start, ip.inum) ==> st2[b] == st[b])
      && (BlockOf(start, ip.inum) !in bad ==> Load(st2, start, ip.inum) == ip.d)
      && (forall j: nat :: j != ip.inum && BlockOf(start, j) < |st| ==> Load(st2, start, j) == Load(st, start, j))
  {
    hide Load, Save;
    SaveLoad(st, start, ip.inum, ip.d);
  }

  /** The write went to the file: its store before and after inode_update. */
  lemma WriteParts(st: Disk, bad: set<nat>, start: nat, ip: Inode, off: nat, src: seq<Byte>) returns (mid: Disk)
    requires Sound(st, start, ip) && off < UINT32 && |src| < UINT32 && InodeWrite(st, bad, start, ip, off, src).ret != -1
    ensures var r := InodeWrite(st, bad, start, ip, off, src);
      var t := Span(bad, ip.d.addrs, off, |src|);
      && r.ret == t && r.ip == ip.(d := ip.d.(size := Max(ip.d.size, off + t)))
      && Wrote(st, mid, ip.d.addrs, off, src[..t]) && |mid| == |st| && r.st == Update(mid, bad, start, r.ip)
  {
    hide Wrote, Covered;
    mid := WriteLoop(st, bad, ip.d.addrs, off, src).0;
    WriteLoopWrites(st, bad, ip.d.addrs, off, src);
  }

  lemma SoundAfter(st: Disk, bad: set<nat>, start: nat, ip: Inode, off: nat, src: seq<Byte>)
    requires Sound(st, start, ip) && off < UINT32 && |src| < UINT32 && InodeWrite(st, bad, start, ip, off, src).ret != -1
    ensures var r := InodeWrite(st, bad, start, ip, off, src); Sound(r.st, start, r.ip)
  {
    var mid := WriteParts(st, bad, start, ip, off, src);
    WriteRefused(st, bad, start, ip, off, src);
    var r := InodeWrite(st, bad, start, ip, off, src);
    hide InodeWrite, Wrote, Covered;
    CoveredAfter(bad, ip.d.addrs, ip.d.size, off, |src|);
    SizeFits(r.ip.d.addrs, r.ip.d.size);
  }

  lemma SizeFits(addrs: seq<nat>, size: nat)
    requires Covered(addrs, size)
    ensures size < UINT32
  {
  }

  lemma SpliceBytes(st: Disk, mid: Disk, st2: Disk, start: nat, ip: Inode, ip2: Inode, off: nat, w: seq<Byte>)
    requires Sound(st, start, ip) && Sound(st2, start, ip2) && ip2.d.addrs == ip.d.addrs
    requires off <= ip.d.size && ip2.d.size == Max(ip.d.size, off + |w|) && Wrote(st, mid, ip.d.addrs, off, w) && |st2| == |st|
    requires forall p: nat :: Mapped(mid, ip.d.addrs, p / BSIZE) ==> ByteAt(st2, ip.d.addrs, p) == ByteAt(mid, ip.d.addrs, p)
    ensures FileBytes(st2, start, ip2) == Splice(FileBytes(st, start, ip), off, w)
  {
    var f, g := FileBytes(st2, start, ip2), FileBytes(st, start, ip);
    hide FileBytes, Sound;
    forall p: nat | p < |f| ensures f[p] == Splice(g, off, w)[p] {
      assert f[p] == ByteAt(mid, ip.d.addrs, p);
    }
  }

  lemma BytesAfter(st: Disk, bad: set<nat>, start: nat, ip: Inode, off: nat, src: seq<Byte>)
    requires Sound(st, start, ip) && off < UINT32 && |src| < UINT32 && InodeWrite(st, bad, start, ip, off, src).ret != -1
    ensures var r := InodeWrite(st, bad, start, ip, off, src);
      && 0 <= r.ret <= |src| && off <= ip.d.size && Sound(r.st, start, r.ip)
      && FileBytes(r.st, start, r.ip) == Splice(FileBytes(st, start, ip), off, src[..r.ret])
  {
    WriteRefused(st, bad, start, ip, off, src);
    var mid := WriteParts(st, bad, start, ip, off, src);
    SoundAfter(st, bad, start, ip, off, src);
    var r := InodeWrite(st, bad, start, ip, off, src);
    var w := src[..r.ret];
    hide InodeWrite, Wrote, FileBytes, Splice;
    assert Fits(r.ip.d) && BlockOf(start, ip.inum) !in ip.d.addrs;
    UpdateFrame(mid, bad, start, r.ip);
    SameBlocks(mid, r.st, ip.d.addrs, BlockOf(start, ip.inum));
    SpliceBytes(st, mid, r.st, start, ip, r.ip, off, w);
  }

  /** inode_write returning t puts the first t source bytes at the offset and changes no other byte of the file,
      whose size becomes the larger of the old one and off + t; t is how far the blocks go. The inode on disk is
      the one in memory, unless its block could not be read. */
  lemma WriteOutcome(st: Disk, bad: set<nat>, start: nat, ip: Inode, off: nat, src: seq<Byte>)
    requires Sound(st, start, ip) && |src| < UINT32 && off <= ip.d.size && off + |src| <= MAXFILE * BSIZE
    requires !Overruns(bad, ip.d.addrs, off, |src|)
    ensures var r := InodeWrite(st, bad, start, ip, off, src);
      && r.ret == Span(bad, ip.d.addrs, off, |src|) && Sound(r.st, start, r.ip)
      && r.ip == ip.(d := ip.d.(size := Max(ip.d.size, off + r.ret)))
      && FileBytes(r.st, start, r.ip) == Splice(FileBytes(st, start, ip), off, src[..r.ret])
      && (BlockOf(start, ip.inum) !in bad ==> Load(r.st, start, ip.inum) == r.ip.d)
  {
    SizeFits(ip.d.addrs, ip.d.size);
    WriteRefused(st, bad, start, ip, off, src);
    BytesAfter(st, bad, start, ip, off, src);
    var mid := WriteParts(st, bad, start, ip, off, src);
    UpdateFrame(mid, bad, start, InodeWrite(st, bad, start, ip, off, src).ip);
  }

  ghost predicate Apart(start: nat, ip: Inode, jp: Inode) {
    && (forall k :: 0 <= k < |jp.d.addrs| && jp.d.addrs[k] != 0 ==> jp.d.addrs[k] !in ip.d.addrs)
    && BlockOf(start, ip.inum) !in jp.d.addrs
  }

  lemma StoreFrame(st: Disk, bad: set<nat>, start: nat, ip: Inode, off: nat, src: seq<Byte>)
    requires Sound(st, start, ip) && off < UINT32 && |src| < UINT32
    ensures var r := InodeWrite(st, bad, start, ip, off, src);
      && |r.st| == |st|
      && forall b :: 0 <= b < |st| && (b == 0 || b !in ip.d.addrs) && b != BlockOf(start, ip.inum) ==> r.st[b] == st[b]
  {
    WriteRefused(st, bad, start, ip, off, src);
    if InodeWrite(st, bad, start, ip, off, src).ret != -1 {
      var mid := WriteParts(st, bad, start, ip, off, src);
      SoundAfter(st, bad, start, ip, off, src);
      UpdateFrame(mid, bad, start, InodeWrite(st, bad, start, ip, off, src).ip);
    }
  }

  /** A write changes no other file: neither its bytes nor its inode on disk. */
  lemma OthersUntouched(st: Disk, bad: set<nat>, start: nat, ip: Inode, off: nat, src: seq<Byte>, jp: Inode)
    requires Sound(st, start, ip) && Sound(st, start, jp) && jp.inum != ip.inum && Apart(start, ip, jp)
    requires off < UINT32 && |src| < UINT32 && BlockOf(start, jp.inum) !in ip.d.addrs
    ensures var r := InodeWrite(st, bad, start, ip, off, src);
      && Sound(r.st, start, jp) && FileBytes(r.st, start, jp) == FileBytes(st, start, jp)
      && Load(r.st, start, jp.inum) == Load(st, start, jp.inum)
  {
    StoreFrame(st, bad, start, ip, off, src);
    OtherInode(st, bad, start, ip, off, src, jp.inum);
    var r := InodeWrite(st, bad, start, ip, off, src);
    hide InodeWrite, Load;
    assert Sound(r.st, start, jp);
    var f, g := FileBytes(r.st, start, jp), FileBytes(st, start, jp);
    hide FileBytes, Sound;
    forall p: nat | p < |f| ensures f[p] == g[p] {
    }
  }

  lemma OtherInode(st: Disk, bad: set<nat>, start: nat, ip: Inode, off: nat, src: seq<Byte>, j: nat)
    requires Sound(st, start, ip) && off < UINT32 && |src| < UINT32 && j != ip.inum
    requires 0 != BlockOf(start, j) < |st| && BlockOf(start, j) !in ip.d.addrs
    ensures |InodeWrite(st, bad, start, ip, off, src).st| == |st|
    ensures Load(InodeWrite(st, bad, start, ip, off, src).st, start, j) == Load(st, start, j)
  {
    WriteRefused(st, bad, start, ip, off, src);
    var r := InodeWrite(st, bad, start, ip, off, src);
    if r.ret != -1 {
      var mid := WriteParts(st, bad, start, ip, off, src);
      SoundAfter(st, bad, start, ip, off, src);
      UpdateFrame(mid, bad, start, r.ip);
      hide InodeWrite, Update;
      assert mid[BlockOf(start, j)] == st[BlockOf(start, j)];
    }
  }

  lemma SliceBytes(st: Disk, start: nat, ip: Inode, off: nat, s: seq<Byte>)
    requires Sound(st, start, ip) && off + |s| <= ip.d.size && Reads(st, ip.d.addrs, off, s)
    ensures s == FileBytes(st, start, ip)[off..off + |s|]
  {
    var f := FileBytes(st, start, ip);
    hide FileBytes, Sound;
    forall i | 0 <= i < |s| ensures s[i] == f[off + i] {
      assert s[off + i - off] == ByteAt(st, ip.d.addrs, off + i);
    }
  }

  /** A read returns the file's bytes from its offset, up to the end of the file or the first block that cannot
      be read; it never runs past the blocks of the inode, and fails only past the end or on a 32-bit overflow. */
  lemma ReadOutcome(st: Disk, bad: set<nat>, start: nat, ip: Inode, off: nat, n: nat)
    requires Sound(st, start, ip) && off < UINT32 && n < UINT32
    ensures var r := InodeRead(st, bad, ip, off, n);
      && (r.ret == -1 <==> off > ip.d.size || off + n >= UINT32)
      && (r.ret != -1 ==>
          var m := Min(n, ip.d.size - off);
          && r.ret == |r.bytes| == Span(bad, ip.d.addrs, off, m) && !Overruns(bad, ip.d.addrs, off, m)
          && r.bytes == FileBytes(st, start, ip)[off..off + r.ret]
          && (bad == {} ==> r.ret == m))
  {
    hide FileBytes, Span, Overruns, ReadLoop, Reads;
    SumWraps(off, n);
    if off <= ip.d.size && off + n < UINT32 {
      var m := Min(n, ip.d.size - off);
      ReadLoopReads(st, bad, ip.d.addrs, off, m);
      ReadsWithin(bad, ip.d.addrs, ip.d.size, off, m);
      SliceBytes(st, start, ip, off, ReadLoop(st, bad, ip.d.addrs, off, m));
    }
  }

  lemma ReadsWithin(bad: set<nat>, addrs: seq<nat>, size: nat, off: nat, m: nat)
    requires |addrs| == NADDR && Covered(addrs, size) && off + m <= size
    ensures !Overruns(bad, addrs, off, m) && Span(bad, addrs, off, m) <= m
    ensures bad == {} ==> Span(bad, addrs, off, m) == m
  {
    SpanIs(bad, addrs, off, m);
    var t := Span(bad, addrs, off, m);
    hide Span;
    if t < m {
      CoveredByte(addrs, size, off + t);
    }
  }

  /** Read after write: reading back the range just written returns what was written. */
  lemma ReadAfterWrite(st: Disk, bad: set<nat>, start: nat, ip: Inode, off: nat, src: seq<Byte>)
    requires Sound(st, start, ip) && |src| < UINT32 && off <= ip.d.size && off + |src| <= MAXFILE * BSIZE
    requires !Overruns(bad, ip.d.addrs, off, |src|)
    ensures var r := InodeWrite(st, bad, start, ip, off, src);
      && r.ret >= 0 && Sound(r.st, start, r.ip)
      && InodeRead(r.st, {}, r.ip, off, r.ret) == Fetched(r.ret, src[..r.ret])
  {
    WriteOutcome(st, bad, start, ip, off, src);
    var r := InodeWrite(st, bad, start, ip, off, src);
    hide InodeWrite, Overruns;
    SizeFits(ip.d.addrs, ip.d.size);
    ReadOutcome(r.st, {}, start, r.ip, off, r.ret);
    var f := FileBytes(r.st, start, r.ip);
    assert f == Splice(FileBytes(st, start, ip), off, src[..r.ret]);
    hide FileBytes, Sound, InodeRead;
    assert f[off..off + r.ret] == src[..r.ret];
  }

  /** The bound of 140 blocks lets a write past the 13 entries through: an inode whose 13 entries are all set,
      written at its end, makes the source read an entry that does not exist. */
  lemma BoundTooWide(st: Disk, start: nat, ip: Inode, src: seq<Byte>)
    requires Sound(st, start, ip) && ip.d.size == REACH && 0 < |src| <= BSIZE
    ensures Overruns({}, ip.d.addrs, REACH, |src|)
    ensures REACH <= ip.d.size && REACH + |src| <= MAXFILE * BSIZE
  {
    OverrunsIff({}, ip.d.addrs, REACH, |src|);
  }

  /** Such an inode: block 1 holds it, blocks 2 to 14 are its data. */
  lemma FullInodeExists() returns (st: Disk, ip: Inode)
    ensures Sound(st, 1, ip) && ip.d.size == REACH
  {
    var zero: Block := seq(BSIZE, _ => 0);
    st := seq(20, _ => zero);
    ip := Inode(1, Dinode(2, 0, 0, 1, REACH, seq(NADDR, k requires 0 <= k < NADDR => k + 2)));
    assert BlockOf(1, 1) == 1;
  }
}
