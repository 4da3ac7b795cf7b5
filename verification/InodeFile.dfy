/** inode.c and file.c in place: buffers, the in-memory inode, the open file. */
module InodeFile {
  import opened Params
  import opened Bytes
  import opened Storage
  import opened DiskInode
  import opened InodeModel
  import opened InodeBytes
  import InodeTheorems
  import opened WriteBudget
  import opened FileModel
  import opened FileTheorems

  /** Writes into `buf` are seen by nobody until LogWrite: the buffer is locked. */
  class BlockStore {
    var blocks: Disk
    const bad: set<nat>

    constructor (blocks: Disk, bad: set<nat>)
      ensures this.blocks == blocks && this.bad == bad
    {
      this.blocks, this.bad := blocks, bad;
    }

    method BlockRead(b: nat) returns (buf: array?<Byte>)
      requires b < |blocks|
      ensures buf == null <==> b in bad
      ensures buf != null ==> fresh(buf) && buf.Length == BSIZE && buf[..] == blocks[b]
    {
      if b in bad {
        return null;
      }
      var s := blocks[b];
      buf := new Byte[BSIZE](i requires 0 <= i < BSIZE => s[i]);
    }

    method LogWrite(b: nat, buf: array<Byte>)
      requires b < |blocks| && buf.Length == BSIZE
      modifies `blocks
      ensures blocks == old(blocks)[b := buf[..]]
    {
      blocks := blocks[b := buf[..]];
    }
  }

  /** The byte loops: `p` into `buf` from position `at`. */
  method CopyInto(buf: array<Byte>, at: nat, p: seq<Byte>)
    requires at + |p| <= buf.Length
    modifies buf
    ensures buf[..] == Patch(old(buf[..]), at, p)
  {
    for i := 0 to |p|
      invariant forall j :: 0 <= j < buf.Length ==> buf[j] == if at <= j < at + i then p[j - at] else old(buf[j])
    {
      buf[at + i] := p[i];
    }
  }

  lemma PatchThen(s: seq<Byte>, at: nat, a: seq<Byte>, b: seq<Byte>)
    requires at + |a| + |b| <= |s|
    ensures Patch(Patch(s, at, a), at + |a|, b) == Patch(s, at, a + b)
  {
  }

  /** `m` bytes of the block at offset `off`. */
  function Piece(st: Disk, addrs: seq<nat>, off: nat, m: nat): (s: seq<Byte>)
    requires off / BSIZE < |addrs| && InDisk(st, addrs) && off % BSIZE + m <= BSIZE
    ensures |s| == m
  {
    st[addrs[off / BSIZE]][off % BSIZE..off % BSIZE + m]
  }

  lemma ReadLoopNext(st: Disk, bad: set<nat>, addrs: seq<nat>, off: nat, n: nat, m: nat)
    requires InDisk(st, addrs) && n > 0 && Usable(bad, addrs, off / BSIZE)
    requires m == Chunk(off, n)
    ensures 0 < m <= n && off % BSIZE + m <= BSIZE
    ensures ReadLoop(st, bad, addrs, off, n) == Piece(st, addrs, off, m) + ReadLoop(st, bad, addrs, off + m, n - m)
  {
    ChunkEnds(off, n);
  }

  lemma ReadLoopStops(st: Disk, bad: set<nat>, addrs: seq<nat>, off: nat, n: nat)
    requires InDisk(st, addrs) && (n == 0 || !Usable(bad, addrs, off / BSIZE))
    ensures ReadLoop(st, bad, addrs, off, n) == []
  {
  }

  lemma PutChunkSize(st: Disk, addrs: seq<nat>, off: nat, src: seq<Byte>)
    requires off / BSIZE < |addrs| && InDisk(st, addrs) && off % BSIZE + |src| <= BSIZE
    ensures |PutChunk(st, addrs, off, src)| == |st|
  {
  }

  lemma PatchAppends(s: seq<Byte>, at: nat, p: seq<Byte>)
    requires at + |p| <= |s|
    ensures Patch(s, at, p)[..at + |p|] == s[..at] + p && Patch(s, at, p)[at + |p|..] == s[at + |p|..]
  {
  }

  lemma NoOverrun(bad: set<nat>, addrs: seq<nat>, off: nat, n: nat)
    requires !Overruns(bad, addrs, off, n) && n > 0
    ensures off / BSIZE < |addrs|
    ensures Usable(bad, addrs, off / BSIZE) ==> Chunk(off, n) <= n && !Overruns(bad, addrs, off + Chunk(off, n), n - Chunk(off, n))
  {
    ChunkEnds(off, n);
  }

  lemma NoWords(s: seq<Byte>, at: nat)
    requires at <= |s|
    ensures |Words([])| == 0 && Patch(s, at, Words([])) == s
  {
  }

  lemma NextWord(s: seq<Byte>, at: nat, ws: seq<nat>, i: nat)
    requires i < |ws| && at + 4 * |ws| <= |s|
    ensures |Words(ws[..i])| == 4 * i && |Words(ws[..i + 1])| == 4 * i + 4 && |ToLe(ws[i], 4)| == 4
    ensures |Patch(s, at, Words(ws[..i]))| == |s|
    ensures Patch(Patch(s, at, Words(ws[..i])), at + 4 * i, ToLe(ws[i], 4)) == Patch(s, at, Words(ws[..i + 1]))
  {
    assert ws[..i + 1][..i] == ws[..i];
    PatchThen(s, at, Words(ws[..i]), ToLe(ws[i], 4));
  }

  class CachedInode {
    var inum: nat
    var valid: bool
    var kind: nat
    var major: nat
    var minor: nat
    var nlink: nat
    var size: nat
    const addrs: array<nat>

    /** An entry inode_get has just claimed; its other fields are left over. */
    constructor (inum: nat)
      ensures this.inum == inum && !valid && addrs.Length == NADDR && fresh(addrs)
    {
      this.inum, valid := inum, false;
      addrs := new nat[NADDR];
    }

    function View(): Inode
      reads this, addrs
    {
      Inode(inum, Dinode(kind, major, minor, nlink, size, addrs[..]))
    }

    /** inode_lock's loading of an inode that is not valid yet. */
    method LoadFrom(store: BlockStore, start: nat)
      requires BlockOf(start, inum) < |store.blocks| && addrs.Length == NADDR
      modifies this, addrs
      ensures inum == old(inum)
      ensures valid <==> old(valid) || BlockOf(start, inum) !in store.bad
      ensures View().d == if old(valid) || !valid then old(View().d) else Load(store.blocks, start, inum)
    {
      if !valid {
        var bp := store.BlockRead(BlockOf(start, inum));
        if bp == null {
          return;
        }
        var s := bp[PlaceOf(inum)..PlaceOf(inum) + DSIZE];
        kind := FromLe(s[0..2]);
        major := FromLe(s[2..4]);
        minor := FromLe(s[4..6]);
        nlink := FromLe(s[6..8]);
        size := FromLe(s[8..12]);
        for i := 0 to NADDR
          invariant forall j :: 0 <= j < i ==> addrs[j] == WordAt(s[12..], 4 * j)
          modifies addrs
        {
          addrs[i] := WordAt(s[12..], 4 * i);
        }
        valid := true;
        assert addrs[..] == Decode(s).addrs;
      }
    }

    /** The 13 entries of the inode, one by one. */
    method CopyAddrs(bp: array<Byte>, at: nat)
      requires at + 4 * addrs.Length <= bp.Length
      modifies bp
      ensures addrs[..] == old(addrs[..]) && bp[..] == Patch(old(bp[..]), at, Words(addrs[..]))
    {
      hide Words, Patch, ToLe;
      ghost var was, ad := bp[..], addrs[..];
      NoWords(was, at);
      assert ad[..0] == [];
      for i := 0 to addrs.Length
        invariant addrs[..] == ad && bp[..] == Patch(was, at, Words(ad[..i]))
      {
        NextWord(was, at, ad, i);
        CopyInto(bp, at + 4 * i, ToLe(addrs[i], 4));
      }
      assert ad[..addrs.Length] == ad;
    }

    /** inode_update, field by field. */
    method Update(store: BlockStore, start: nat)
      requires BlockOf(start, inum) < |store.blocks| && addrs.Length == NADDR
      modifies store`blocks
      ensures store.blocks == InodeModel.Update(old(store.blocks), store.bad, start, View())
    {
      var b := BlockOf(start, inum);
      var bp := store.BlockRead(b);
      if bp == null {
        return;
      }
      var at := PlaceOf(inum);
      ghost var s := bp[..];
      var head := ToLe(kind, 2) + ToLe(major, 2) + ToLe(minor, 2) + ToLe(nlink, 2) + ToLe(size, 4);
      CopyInto(bp, at, head);
      CopyAddrs(bp, at + 12);
      PatchThen(s, at, head, Words(addrs[..]));
      store.LogWrite(b, bp);
    }

    /** One turn of inode_read's loop; 0 where it breaks. */
    method ReadBlock(store: BlockStore, dst: array<Byte>, o: nat, tot: nat, k: nat) returns (m: nat)
      requires InDisk(store.blocks, addrs[..]) && o / BSIZE < addrs.Length && tot < k <= dst.Length
      modifies dst
      ensures addrs[..] == old(addrs[..]) && m <= k - tot
      ensures m == 0 <==> !Usable(store.bad, addrs[..], o / BSIZE)
      ensures m > 0 ==> m == Chunk(o, k - tot) && o % BSIZE + m <= BSIZE
      ensures m == 0 ==> dst[..] == old(dst[..])
      ensures m > 0 ==> dst[..tot + m] == old(dst[..tot]) + Piece(store.blocks, addrs[..], o, m)
      ensures dst[tot + m..] == old(dst[..])[tot + m..]
    {
      var addr := addrs[o / BSIZE];
      if addr == 0 {
        return 0;
      }
      var bp := store.BlockRead(addr);
      if bp == null {
        return 0;
      }
      m := BSIZE - o % BSIZE;
      if m > k - tot {
        m := k - tot;
      }
      ghost var was := dst[..];
      CopyInto(dst, tot, bp[o % BSIZE..o % BSIZE + m]);
      PatchAppends(was, tot, bp[o % BSIZE..o % BSIZE + m]);
    }

    /** The loop of inode_read. */
    method CopyOut(store: BlockStore, dst: array<Byte>, off: nat, k: nat) returns (tot: nat)
      requires InDisk(store.blocks, addrs[..]) && k <= dst.Length && !Overruns(store.bad, addrs[..], off, k)
      modifies dst
      ensures var s := ReadLoop(store.blocks, store.bad, addrs[..], off, k);
        tot == |s| <= dst.Length && dst[..] == s + old(dst[..])[tot..]
    {
      hide Overruns, Chunk, ReadLoop, Usable, Piece;
      tot := 0;
      ghost var st, bad, ad := store.blocks, store.bad, addrs[..];
      while tot < k
        invariant tot <= k && !Overruns(bad, ad, off + tot, k - tot) && addrs[..] == ad
        invariant dst[..tot] + ReadLoop(st, bad, ad, off + tot, k - tot) == ReadLoop(st, bad, ad, off, k)
        invariant dst[tot..] == old(dst[..])[tot..]
      {
        NoOverrun(bad, ad, off + tot, k - tot);
        var m := ReadBlock(store, dst, off + tot, tot, k);
        if m == 0 {
          break;
        }
        ReadLoopNext(st, bad, ad, off + tot, k - tot, m);
        tot := tot + m;
      }
      ReadLoopStops(st, bad, ad, off + tot, k - tot);
    }

    /** inode_read. */
    method Read(store: BlockStore, dst: array<Byte>, off: nat, n: nat) returns (ret: int)
      requires InDisk(store.blocks, addrs[..]) && addrs.Length == NADDR && off < UINT32 && n < UINT32
      requires off <= size ==> Min(n, size - off) <= dst.Length && !Overruns(store.bad, addrs[..], off, Min(n, size - off))
      modifies dst
      ensures var r := InodeRead(store.blocks, store.bad, View(), off, n);
        ret == r.ret && |r.bytes| <= dst.Length && dst[..] == r.bytes + old(dst[..])[|r.bytes|..]
    {
      hide Overruns, Chunk, ReadLoop, Usable;
      InodeTheorems.SumWraps(off, n);
      if off > size || (off + n) % UINT32 < off {
        return -1;
      }
      ret := CopyOut(store, dst, off, if (off + n) % UINT32 > size then size - off else n);
    }

    /** One turn of inode_write's loop; 0 where it breaks. */
    method WriteBlock(store: BlockStore, src: seq<Byte>, o: nat, tot: nat) returns (m: nat)
      requires InDisk(store.blocks, addrs[..]) && o / BSIZE < addrs.Length && tot < |src|
      modifies store`blocks
      ensures m <= |src| - tot && (m == 0 <==> !Usable(store.bad, addrs[..], o / BSIZE))
      ensures m == 0 ==> store.blocks == old(store.blocks)
      ensures m > 0 ==> m == Chunk(o, |src| - tot) && o % BSIZE + m <= BSIZE
      ensures m > 0 ==> store.blocks == PutChunk(old(store.blocks), addrs[..], o, src[tot..tot + m])
    {
      var bn := o / BSIZE;
      if addrs[bn] == 0 {
        return 0;
      }
      var bp := store.BlockRead(addrs[bn]);
      if bp == null {
        return 0;
      }
      m := BSIZE - o % BSIZE;
      if m > |src| - tot {
        m := |src| - tot;
      }
      CopyInto(bp, o % BSIZE, src[tot..tot + m]);
      store.LogWrite(addrs[bn], bp);
    }

    /** inode_write. */
    method Write(store: BlockStore, start: nat, off: nat, src: seq<Byte>) returns (ret: int)
      requires InDisk(store.blocks, addrs[..]) && addrs.Length == NADDR && BlockOf(start, inum) < |store.blocks|
      requires off < UINT32 && |src| < UINT32
      requires off <= size && off + |src| <= MAXFILE * BSIZE ==> !Overruns(store.bad, addrs[..], off, |src|)
      modifies store`blocks, `size
      ensures Written(ret, store.blocks, View()) == InodeWrite(old(store.blocks), store.bad, start, old(View()), off, src)
    {
      hide Overruns, Chunk, WriteLoop, Usable, PutChunk, InodeModel.Update;
      InodeTheorems.SumWraps(off, |src|);
      if off > size || (off + |src|) % UINT32 < off {
        return -1;
      }
      if (off + |src|) % UINT32 > MAXFILE * BSIZE {
        return -1;
      }
      var tot := CopyIn(store, off, src);
      if off + tot > size {
        size := off + tot;
      }
      Update(store, start);
      ret := tot;
    }

    /** The loop of inode_write. */
    method CopyIn(store: BlockStore, off: nat, src: seq<Byte>) returns (tot: nat)
      requires InDisk(store.blocks, addrs[..]) && !Overruns(store.bad, addrs[..], off, |src|)
      modifies store`blocks
      ensures (store.blocks, tot) == WriteLoop(old(store.blocks), store.bad, addrs[..], off, src)
    {
      hide Overruns, Chunk, WriteLoop, Usable, PutChunk;
      tot := 0;
      ghost var st, bad, ad := store.blocks, store.bad, addrs[..];
      assert src[0..] == src;
      while tot < |src|
        invariant tot <= |src| && !Overruns(bad, ad, off + tot, |src| - tot) && |store.blocks| == |st|
        invariant var r := WriteLoop(store.blocks, bad, ad, off + tot, src[tot..]);
          WriteLoop(st, bad, ad, off, src) == (r.0, tot + r.1)
      {
        NoOverrun(bad, ad, off + tot, |src| - tot);
        ghost var was := store.blocks;
        var m := WriteBlock(store, src, off + tot, tot);
        if m == 0 {
          break;
        }
        WriteLoopNext(was, bad, ad, off + tot, src[tot..], m);
        assert src[tot..][..m] == src[tot..tot + m] && src[tot..][m..] == src[tot + m..];
        PutChunkSize(was, ad, off + tot, src[tot..tot + m]);
        tot := tot + m;
      }
      WriteLoopStops(store.blocks, bad, ad, off + tot, src[tot..]);
    }
  }

  lemma NotRefused(f: Open, bad: set<nat>, start: nat, c: seq<Byte>)
    requires Shape(start, f) && f.off <= f.ip.d.size && f.off + |c| <= MAXFILE * BSIZE
    ensures WriteChunk(f, bad, start, c).1 != -1
  {
    hide WriteLoop, InodeModel.Update;
  }

  lemma InsideUnfolds(f: Open, bads: nat -> set<nat>, start: nat, src: seq<Byte>, i: nat, c: seq<Byte>)
    requires Shape(start, f) && i < |src| && c == ChunkOf(src, i) && StaysInside(f, bads, start, src, i)
    ensures var w := WriteChunk(f, bads(i), start, c);
      && (w.1 != -1 ==> !Overruns(bads(i), f.ip.d.addrs, f.off, |c|))
      && (w.1 == |c| ==> StaysInside(w.0, bads, start, src, i + |c|))
  {
    hide WriteChunk, Overruns;
  }

  lemma NextChunkInside(f: Open, bads: nat -> set<nat>, start: nat, src: seq<Byte>, i: nat, c: seq<Byte>)
    requires Shape(start, f) && i < |src| && c == ChunkOf(src, i) && StaysInside(f, bads, start, src, i)
    ensures f.off <= f.ip.d.size && f.off + |c| <= MAXFILE * BSIZE ==> !Overruns(bads(i), f.ip.d.addrs, f.off, |c|)
    ensures WriteChunk(f, bads(i), start, c).1 == |c| ==> StaysInside(WriteChunk(f, bads(i), start, c).0, bads, start, src, i + |c|)
  {
    hide WriteChunk, Overruns, StaysInside, ChunkOf, Shape;
    InsideUnfolds(f, bads, start, src, i, c);
    if f.off <= f.ip.d.size && f.off + |c| <= MAXFILE * BSIZE {
      NotRefused(f, bads(i), start, c);
    }
  }

  lemma LoopOver(f: Open, bads: nat -> set<nat>, start: nat, src: seq<Byte>)
    requires Shape(start, f)
    ensures WriteChunks(f, bads, start, src, |src|) == (f, |src|)
  {
  }

  /** An open inode file. */
  class OpenFile {
    const readable: bool
    const writable: bool
    const ip: CachedInode
    var off: nat

    constructor (readable: bool, writable: bool, ip: CachedInode)
      ensures this.readable == readable && this.writable == writable && this.ip == ip && off == 0
    {
      this.readable, this.writable, this.ip, this.off := readable, writable, ip, 0;
    }

    function View(store: BlockStore): Open
      reads this, ip, ip.addrs, store
    {
      Open(store.blocks, ip.View(), off)
    }

    /** One transaction: inode_write at the offset, and the offset moved. */
    method WriteOne(store: BlockStore, start: nat, c: seq<Byte>) returns (r: int)
      requires Shape(start, View(store)) && off < UINT32 && |c| < UINT32
      requires off <= ip.size && off + |c| <= MAXFILE * BSIZE ==> !Overruns(store.bad, ip.addrs[..], off, |c|)
      modifies `off, ip`size, store`blocks
      ensures (View(store), r) == WriteChunk(old(View(store)), store.bad, start, c)
    {
      hide InodeWrite, Overruns;
      r := ip.Write(store, start, off, c);
      if r > 0 {
        off := (off + r) % UINT32;
      } else {
        SmallStays(off);
      }
    }

    /** file_write. */
    method Write(store: BlockStore, start: nat, src: seq<Byte>, n: int) returns (ret: int)
      requires Shape(start, View(store)) && InodeBytes.Sound(store.blocks, start, ip.View()) && off < UINT32
      requires n < 0x8000_0000 && (n < 0 || n == |src|)
      requires off <= ip.size ==> Inside(ip.addrs[..], off, |src|)
      modifies `off, ip`size, store`blocks
      ensures !writable ==> ret == -1 && View(store) == old(View(store))
      ensures writable ==> (View(store), ret) == FileWrite(old(View(store)), _ => store.bad, start, src, n)
    {
      hide WriteChunks, WriteChunk, StaysInside, ChunkOf, Overruns, Inside, InodeBytes.Sound;
      if !writable {
        return -1;
      }
      if n < 0 {
        return -1;
      }
      ghost var f, bads := View(store), (_: nat) => store.bad;
      StartsInside(f, bads, start, src);
      var i := 0;
      while i < n
        invariant i <= |src| && Shape(start, View(store)) && off < UINT32 && ip.addrs[..] == old(ip.addrs[..])
        invariant StaysInside(View(store), bads, start, src, i)
        invariant WriteChunks(f, bads, start, src, 0) == WriteChunks(View(store), bads, start, src, i)
      {
        var n1 := n - i;
        if n1 > CHUNK {
          n1 := CHUNK;
        }
        var c := src[i..i + n1];
        ghost var g := View(store);
        ChunkIs(src, i, c);
        NextChunkInside(g, bads, start, src, i, c);
        WriteChunksNext(g, bads, start, src, i);
        OffsetFits(g, bads(i), start, c);
        var r := WriteOne(store, start, c);
        if r != n1 {
          break;
        }
        i := i + r;
      }
      if i == n {
        LoopOver(View(store), bads, start, src);
      }
      ret := if i == n then n else -1;
    }

    /** file_read. */
    method Read(store: BlockStore, dst: array<Byte>, n: int) returns (ret: int)
      requires InDisk(store.blocks, ip.addrs[..]) && ip.addrs.Length == NADDR && off < UINT32 && -0x8000_0000 <= n < 0x8000_0000
      requires off <= ip.size ==>
        Min(n % UINT32, ip.size - off) <= dst.Length && !Overruns(store.bad, ip.addrs[..], off, Min(n % UINT32, ip.size - off))
      modifies `off, dst
      ensures !readable ==> ret == -1 && off == old(off) && dst[..] == old(dst[..])
      ensures readable ==>
        var r := FileRead(old(View(store)), store.bad, n);
        View(store) == r.0 && ret == r.1.ret && |r.1.bytes| <= dst.Length && dst[..] == r.1.bytes + old(dst[..])[|r.1.bytes|..]
    {
      hide InodeRead, Overruns;
      if !readable {
        return -1;
      }
      ret := ip.Read(store, dst, off, n % UINT32);
      if ret > 0 {
        off := (off + ret) % UINT32;
      } else {
        SmallStays(off);
      }
    }
  }

  lemma SmallStays(off: nat)
    requires off < UINT32
    ensures (off + 0) % UINT32 == off
  {
  }

  lemma StartsInside(f: Open, bads: nat -> set<nat>, start: nat, src: seq<Byte>)
    requires Shape(start, f) && Sound(f.st, start, f.ip) && f.off < UINT32 && |src| < UINT32
    requires f.off <= f.ip.d.size ==> Inside(f.ip.d.addrs, f.off, |src|)
    ensures StaysInside(f, bads, start, src, 0)
  {
    hide StaysInside, Inside, Sound, WriteChunks;
    if f.off <= f.ip.d.size {
      ChunksInside(f, bads, start, src, 0);
    } else {
      PastTheEnd(f, bads, start, src);
    }
  }

  lemma ChunkIs(src: seq<Byte>, i: nat, c: seq<Byte>)
    requires i < |src| && c == src[i..i + if |src| - i > CHUNK then CHUNK else |src| - i]
    ensures c == ChunkOf(src, i) && |c| <= CHUNK
  {
  }

  lemma OffsetFits(f: Open, bad: set<nat>, start: nat, c: seq<Byte>)
    requires Shape(start, f)
    ensures WriteChunk(f, bad, start, c).0.off < UINT32 && Shape(start, WriteChunk(f, bad, start, c).0)
  {
    hide InodeWrite;
  }
}
