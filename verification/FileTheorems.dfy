/** Chunked writing is one write. */
module FileTheorems {
  import opened Params
  import opened Bytes
  import opened Storage
  import opened DiskInode
  import opened InodeModel
  import opened InodeBytes
  import opened InodeTheorems
  import opened WriteBudget
  import opened FileModel

  /** No chunk that file_write gets to makes inode_write run past the entries of the inode. */
  ghost predicate StaysInside(f: Open, bads: nat -> set<nat>, start: nat, src: seq<Byte>, i: nat)
    requires Shape(start, f) && i <= |src|
    decreases |src| - i
  {
    i == |src| ||
    var c := ChunkOf(src, i);
    var w := WriteChunk(f, bads(i), start, c);
    && (w.1 != -1 ==> !Overruns(bads(i), f.ip.d.addrs, f.off, |c|))
    && (w.1 == |c| ==> StaysInside(w.0, bads, start, src, i + |c|))
  }

  lemma WriteChunksNext(f: Open, bads: nat -> set<nat>, start: nat, src: seq<Byte>, i: nat)
    requires Shape(start, f) && i < |src|
    ensures var c := ChunkOf(src, i);
      var w := WriteChunk(f, bads(i), start, c);
      && 0 < |c| <= CHUNK && i + |c| <= |src| && c == src[i..i + |c|]
      && WriteChunks(f, bads, start, src, i) == if w.1 != |c| then (w.0, i) else WriteChunks(w.0, bads, start, src, i + |c|)
  {
    hide WriteChunk;
  }

  /** What the loop wrote from byte `i` on: a prefix, whole exactly when the loop ran to its end. */
  lemma {:induction false} ChunksWrote(f: Open, bads: nat -> set<nat>, start: nat, src: seq<Byte>, i: nat) returns (t: nat)
    requires Shape(start, f) && i <= |src| && Sound(f.st, start, f.ip) && f.off <= f.ip.d.size
    ensures var r := WriteChunks(f, bads, start, src, i);
      && i + t <= |src| && Advanced(start, f, r.0, src[i..i + t]) && Sound(r.0.st, start, r.0.ip) && r.0.off <= r.0.ip.d.size
      && (r.1 == |src| <==> i + t == |src|)
    decreases |src| - i
  {
    hide Advanced, Sound, WriteChunks, WriteChunk, ChunkOf;
    if i == |src| {
      t := 0;
      LoopEnds(f, bads, start, src, i);
      AdvancedNone(start, f);
    } else {
      WriteChunksNext(f, bads, start, src, i);
      var c := ChunkOf(src, i);
      var w := WriteChunk(f, bads(i), start, c);
      ChunkWrote(f, bads(i), start, c);
      if w.1 != |c| {
        t := Gain(w.1);
        assert c[..t] == src[i..i + t];
      } else {
        assert c[..Gain(w.1)] == c;
        t := ChunksWrote(w.0, bads, start, src, i + |c|);
        AdvancedThen(start, f, w.0, WriteChunks(f, bads, start, src, i).0, c, src[i + |c|..i + |c| + t]);
        PiecesJoin(src, i, |c|, t);
        t := |c| + t;
      }
    }
  }

  lemma PiecesJoin(src: seq<Byte>, i: nat, m: nat, t: nat)
    requires i + m + t <= |src|
    ensures src[i..i + m] + src[i + m..i + m + t] == src[i..i + (m + t)]
  {
  }

  lemma LoopEnds(f: Open, bads: nat -> set<nat>, start: nat, src: seq<Byte>, i: nat)
    requires Shape(start, f) && i == |src|
    ensures WriteChunks(f, bads, start, src, i) == (f, i) && src[i..i + 0] == []
  {
  }

  lemma {:induction false} ChunksInside(f: Open, bads: nat -> set<nat>, start: nat, src: seq<Byte>, i: nat)
    requires Shape(start, f) && i <= |src| && Sound(f.st, start, f.ip) && f.off <= f.ip.d.size
    requires Inside(f.ip.d.addrs, f.off, |src| - i)
    ensures StaysInside(f, bads, start, src, i)
    decreases |src| - i
  {
    hide Sound, WriteChunk, WriteChunks, Inside, ChunkOf, Overruns, Span, StaysInside, Advanced;
    if i == |src| {
      StaysAtEnd(f, bads, start, src, i);
    } else {
      WriteChunksNext(f, bads, start, src, i);
      var c := ChunkOf(src, i);
      var w := WriteChunk(f, bads(i), start, c);
      ChunkWrote(f, bads(i), start, c);
      SoundParts(f.st, start, f.ip);
      InsideStays(bads(i), f.ip.d.addrs, f.off, |c|, |src| - i);
      if w.1 == |c| {
        OffsetMoved(start, f, w.0, c);
        InsideNext(bads(i), f.ip.d.addrs, f.off, |c|, |src| - i);
        ChunksInside(w.0, bads, start, src, i + |c|);
      }
      StaysNext(f, bads, start, src, i, c);
    }
  }

  lemma StaysAtEnd(f: Open, bads: nat -> set<nat>, start: nat, src: seq<Byte>, i: nat)
    requires Shape(start, f) && i == |src|
    ensures StaysInside(f, bads, start, src, i)
  {
  }

  lemma StaysNext(f: Open, bads: nat -> set<nat>, start: nat, src: seq<Byte>, i: nat, c: seq<Byte>)
    requires Shape(start, f) && i < |src| && c == ChunkOf(src, i) && !Overruns(bads(i), f.ip.d.addrs, f.off, |c|)
    requires var w := WriteChunk(f, bads(i), start, c); w.1 == |c| ==> StaysInside(w.0, bads, start, src, i + |c|)
    ensures StaysInside(f, bads, start, src, i)
  {
    hide WriteChunk, Overruns;
  }

  lemma OffsetMoved(start: nat, f: Open, g: Open, c: seq<Byte>)
    requires Advanced(start, f, g, c[..|c|])
    ensures g.off == f.off + |c| && g.ip.d.addrs == f.ip.d.addrs
  {
  }

  /** file_write from an offset within the file writes a prefix of its source and advances the offset by exactly
      that prefix: all of it when it returns n, less when it returns -1. From past the end, or with a negative
      count, it fails and changes nothing. */
  lemma FileWriteOutcome(f: Open, bads: nat -> set<nat>, start: nat, src: seq<Byte>, n: int) returns (t: nat)
    requires Shape(start, f) && Sound(f.st, start, f.ip) && f.off < UINT32 && n < 0x8000_0000 && (n < 0 || n == |src|)
    requires f.off <= f.ip.d.size ==> Inside(f.ip.d.addrs, f.off, |src|)
    ensures var r := FileWrite(f, bads, start, src, n);
      && Sound(r.0.st, start, r.0.ip) && t <= |src| && r.0.off == f.off + t && (r.1 == n || r.1 == -1)
      && (n >= 0 ==> (r.1 == n <==> t == n) && StaysInside(f, bads, start, src, 0))
      && (n < 0 || (f.off > f.ip.d.size && n > 0) ==> r == (f, -1))
      && (f.off <= f.ip.d.size ==> FileBytes(r.0.st, start, r.0.ip) == Splice(FileBytes(f.st, start, f.ip), f.off, src[..t]))
  {
    hide Sound, WriteChunks, StaysInside, Advanced, FileBytes, Inside;
    t := 0;
    if n < 0 {
      NothingSpliced(f, start, src[..0]);
    } else if f.off > f.ip.d.size {
      PastTheEnd(f, bads, start, src);
    } else {
      ChunksInside(f, bads, start, src, 0);
      t := ChunksWrote(f, bads, start, src, 0);
      assert src[0..0 + t] == src[..t];
      AdvancedBytes(start, f, WriteChunks(f, bads, start, src, 0).0, src[..t]);
      OffsetAfter(start, f, WriteChunks(f, bads, start, src, 0).0, src[..t]);
    }
  }

  lemma NothingSpliced(f: Open, start: nat, w: seq<Byte>)
    requires Sound(f.st, start, f.ip) && w == []
    ensures f.off <= f.ip.d.size ==> FileBytes(f.st, start, f.ip) == Splice(FileBytes(f.st, start, f.ip), f.off, w)
  {
  }

  lemma OffsetAfter(start: nat, f: Open, g: Open, w: seq<Byte>)
    requires Advanced(start, f, g, w)
    ensures g.off == f.off + |w|
  {
  }

  lemma ChunkPastTheEnd(f: Open, bad: set<nat>, start: nat, c: seq<Byte>)
    requires Shape(start, f) && Sound(f.st, start, f.ip) && f.ip.d.size < f.off < UINT32 && |c| < UINT32
    ensures WriteChunk(f, bad, start, c) == (f, -1)
  {
    WriteRefused(f.st, bad, start, f.ip, f.off, c);
    hide Sound, InodeWrite;
  }

  lemma StopsAtOnce(f: Open, bads: nat -> set<nat>, start: nat, src: seq<Byte>, c: seq<Byte>)
    requires Shape(start, f) && src != [] && c == ChunkOf(src, 0) && WriteChunk(f, bads(0), start, c) == (f, -1)
    ensures StaysInside(f, bads, start, src, 0)
  {
    hide WriteChunk, Overruns, ChunkOf;
  }

  lemma PastTheEnd(f: Open, bads: nat -> set<nat>, start: nat, src: seq<Byte>)
    requires Shape(start, f) && Sound(f.st, start, f.ip) && f.off < UINT32 && |src| < UINT32
    ensures f.off > f.ip.d.size ==> WriteChunks(f, bads, start, src, 0) == (f, 0) && StaysInside(f, bads, start, src, 0)
  {
    hide Sound, WriteChunk, WriteChunks, StaysInside, ChunkOf, Shape;
    if src == [] {
      LoopEnds(f, bads, start, src, 0);
      StaysAtEnd(f, bads, start, src, 0);
    } else if f.off > f.ip.d.size {
      WriteChunksNext(f, bads, start, src, 0);
      ChunkPastTheEnd(f, bads(0), start, ChunkOf(src, 0));
      StopsAtOnce(f, bads, start, src, ChunkOf(src, 0));
    }
  }

  lemma SameAdvance(start: nat, f: Open, g: Open, h: Open, w: seq<Byte>)
    requires Advanced(start, f, g, w) && Advanced(start, f, h, w)
    requires Sound(f.st, start, f.ip)
    ensures g.ip == h.ip && g.off == h.off
    ensures forall b :: 0 <= b < |f.st| && b != BlockOf(start, f.ip.inum) ==> g.st[b] == h.st[b]
  {
    var addrs := f.ip.d.addrs;
    forall b | 0 <= b < |f.st| && b != BlockOf(start, f.ip.inum) ensures g.st[b] == h.st[b] {
      if b != 0 && b in addrs {
        var k: nat :| k < |addrs| && addrs[k] == b;
        forall i: nat | i < BSIZE ensures g.st[b][i] == h.st[b][i] {
          BlockByte(k, i);
          assert Mapped(f.st, addrs, (k * BSIZE + i) / BSIZE);
          assert ByteAt(g.st, addrs, k * BSIZE + i) == ByteAt(h.st, addrs, k * BSIZE + i);
        }
      }
    }
  }

  lemma FullSpan(start: nat, f: Open, g: Open, w: seq<Byte>)
    requires Advanced(start, f, g, w) && Sound(f.st, start, f.ip) && Sound(g.st, start, g.ip) && w != []
    ensures f.off + |w| <= MAXFILE * BSIZE && Span({}, f.ip.d.addrs, f.off, |w|) == |w|
  {
    ReadsWithin({}, f.ip.d.addrs, g.ip.d.size, f.off, |w|);
  }

  // ---- the inode's own block ----------------------------------------------

  /** The block holding the file's inode, after writes that may or may not have reached it: the inode's 64 bytes
      aside, it is as it was. */
  ghost predicate Touched(start: nat, f: Open, g: Open)
    requires Shape(start, f)
  {
    var b, at := BlockOf(start, f.ip.inum), PlaceOf(f.ip.inum);
    && |g.st| == |f.st| && g.ip.inum == f.ip.inum
    && forall k :: 0 <= k < BSIZE && !(at <= k < at + DSIZE) ==> g.st[b][k] == f.st[b][k]
  }

  /** It holds the file's inode as the system has it in memory. */
  ghost predicate Saved(start: nat, f: Open, g: Open)
    requires Shape(start, f)
  {
    && |g.st| == |f.st| && g.ip.inum == f.ip.inum && |g.ip.d.addrs| == NADDR
    && g.st[BlockOf(start, f.ip.inum)] == Patch(f.st[BlockOf(start, f.ip.inum)], PlaceOf(f.ip.inum), Encode(g.ip.d))
  }

  lemma SavedLast(start: nat, f: Open, g: Open, h: Open)
    requires Shape(start, f) && Shape(start, g) && Touched(start, f, g) && Saved(start, g, h)
    ensures Saved(start, f, h)
  {
    hide Encode, PlaceOf, BlockOf;
    PlaceFits(f.ip.inum);
    var b, at := BlockOf(start, f.ip.inum), PlaceOf(f.ip.inum);
    assert h.st[b] == Patch(f.st[b], at, Encode(h.ip.d));
  }

  lemma ChunkSaved(f: Open, bad: set<nat>, start: nat, c: seq<Byte>)
    requires Shape(start, f) && Sound(f.st, start, f.ip) && f.off < UINT32 && |c| < UINT32
    requires InodeWrite(f.st, bad, start, f.ip, f.off, c).ret != -1
    ensures var g := WriteChunk(f, bad, start, c).0;
      Touched(start, f, g) && (BlockOf(start, f.ip.inum) !in bad ==> Saved(start, f, g))
  {
    hide InodeWrite, Encode, PlaceOf, BlockOf, Sound, Span, DiskInode.Fits;
    var r := InodeWrite(f.st, bad, start, f.ip, f.off, c);
    var mid := WriteParts(f.st, bad, start, f.ip, f.off, c);
    SoundParts(f.st, start, f.ip);
    PlaceFits(f.ip.inum);
  }

  /** Where the last chunk begins, the chunks from byte `i` on being full ones. */
  function LastChunk(i: nat, n: nat): nat
    requires i <= n
    decreases n - i
  {
    if n - i <= CHUNK then i else LastChunk(i + CHUNK, n)
  }

  lemma ChunkLength(src: seq<Byte>, i: nat)
    requires i <= |src|
    ensures |ChunkOf(src, i)| == if |src| - i <= CHUNK then |src| - i else CHUNK
  {
  }

  lemma LastNext(i: nat, n: nat)
    requires i <= n
    ensures LastChunk(i, n) == if n - i <= CHUNK then i else LastChunk(i + CHUNK, n)
  {
  }

  /** Only the last chunk decides what is in the inode's block. */
  lemma {:induction false} ChunksSaved(f: Open, bads: nat -> set<nat>, start: nat, src: seq<Byte>, i: nat)
    requires Shape(start, f) && i < |src| < UINT32 && Sound(f.st, start, f.ip) && f.off <= f.ip.d.size
    requires WriteChunks(f, bads, start, src, i).1 == |src| && BlockOf(start, f.ip.inum) !in bads(LastChunk(i, |src|))
    ensures Saved(start, f, WriteChunks(f, bads, start, src, i).0)
    decreases |src| - i
  {
    hide Sound, WriteChunks, Advanced, BlockOf, Saved, Touched, LastChunk, InodeWrite, Span;
    var c := ChunkOf(src, i);
    var w := WriteChunk(f, bads(i), start, c);
    WriteChunksNext(f, bads, start, src, i);
    ChunkWrote(f, bads(i), start, c);
    SoundParts(f.st, start, f.ip);
    ChunkSaved(f, bads(i), start, c);
    ChunkLength(src, i);
    LastNext(i, |src|);
    if i + |c| == |src| {
      LoopEnds(w.0, bads, start, src, |src|);
    } else {
      ChunksSaved(w.0, bads, start, src, i + |c|);
      SavedLast(start, f, w.0, WriteChunks(w.0, bads, start, src, i + |c|).0);
    }
  }

  lemma SavedSame(start: nat, f: Open, g: Open, h: Open)
    requires Shape(start, f) && Saved(start, f, g) && Saved(start, f, h) && g.ip == h.ip
    requires forall b :: 0 <= b < |f.st| && b != BlockOf(start, f.ip.inum) ==> g.st[b] == h.st[b]
    ensures g.st == h.st
  {
    hide Encode, PlaceOf, BlockOf;
  }

  /** A file_write that returns n > 0 did what one undivided inode_write of the same bytes does: same size, same
      content, same blocks, and the same whole disk when the inode's block could be read for the last chunk. */
  lemma ChunkedIsOneWrite(f: Open, bads: nat -> set<nat>, start: nat, src: seq<Byte>)
    requires Shape(start, f) && Sound(f.st, start, f.ip) && f.off < UINT32 && 0 < |src| < 0x8000_0000
    requires f.off <= f.ip.d.size ==> Inside(f.ip.d.addrs, f.off, |src|)
    requires FileWrite(f, bads, start, src, |src|).1 == |src|
    ensures var r := FileWrite(f, bads, start, src, |src|).0;
      var one := InodeWrite(f.st, {}, start, f.ip, f.off, src);
      && r.off == f.off + |src| && one.ret == |src| && one.ip == r.ip && |one.st| == |r.st| == |f.st|
      && Sound(r.st, start, r.ip) && Sound(one.st, start, one.ip)
      && FileBytes(r.st, start, r.ip) == FileBytes(one.st, start, one.ip)
      && (forall b :: 0 <= b < |f.st| && b != BlockOf(start, f.ip.inum) ==> r.st[b] == one.st[b])
      && (BlockOf(start, f.ip.inum) !in bads(LastChunk(0, |src|)) ==> r.st == one.st)
  {
    hide Sound, WriteChunks, StaysInside, Advanced, FileBytes, Inside, InodeWrite, Span, BlockOf, LastChunk, Saved, Touched;
    var all := FileWriteOutcome(f, bads, start, src, |src|);
    assert f.off <= f.ip.d.size;
    var t := ChunksWrote(f, bads, start, src, 0);
    var r := FileWrite(f, bads, start, src, |src|).0;
    assert src[0..0 + t] == src;
    FullSpan(start, f, r, src);
    WriteRefused(f.st, {}, start, f.ip, f.off, src);
    ChunkAccepted(f, {}, start, src);
    var w := WriteChunk(f, {}, start, src).0;
    assert src[..|src|] == src;
    SameAdvance(start, f, r, w, src);
    AdvancedBytes(start, f, r, src);
    AdvancedBytes(start, f, w, src);
    AdvancedSize(start, f, r, src);
    AdvancedSize(start, f, w, src);
    ChunkSaved(f, {}, start, src);
    if BlockOf(start, f.ip.inum) !in bads(LastChunk(0, |src|)) {
      ChunksSaved(f, bads, start, src, 0);
      SavedSame(start, f, r, w);
    }
  }

  lemma AdvancedSize(start: nat, f: Open, g: Open, w: seq<Byte>)
    requires Advanced(start, f, g, w)
    ensures |g.st| == |f.st| && g.off == f.off + |w|
  {
  }

  /** file_read returns the bytes at the offset, as many as asked for and present, and moves the offset past them. */
  lemma FileReadOutcome(f: Open, start: nat, n: int)
    requires Sound(f.st, start, f.ip) && f.off <= f.ip.d.size && 0 <= n < 0x8000_0000
    ensures var r := FileRead(f, {}, n);
      var m := Min(n, f.ip.d.size - f.off);
      && r.1 == Fetched(m, FileBytes(f.st, start, f.ip)[f.off..f.off + m]) && r.0 == f.(off := f.off + m)
  {
    hide Sound, InodeRead, Span, Overruns, FileBytes, Min, FileRead;
    SoundParts(f.st, start, f.ip);
    ReadOutcome(f.st, {}, start, f.ip, f.off, n);
    MinBound(n, f.ip.d.size - f.off);
    ReadMoves(f, n, InodeRead(f.st, {}, f.ip, f.off, n));
  }

  lemma ReadMoves(f: Open, n: nat, g: Fetched)
    requires InDisk(f.st, f.ip.d.addrs) && n < UINT32 && g == InodeRead(f.st, {}, f.ip, f.off, n)
    requires f.off + Gain(g.ret) < UINT32
    ensures FileRead(f, {}, n) == (f.(off := f.off + Gain(g.ret)), g)
  {
    hide InodeRead;
  }

  lemma MinBound(a: nat, b: nat)
    ensures Min(a, b) <= a && Min(a, b) <= b
  {
  }

  /** A negative count is taken as its 32-bit pattern: it fails when the sum wraps, and reads the rest of the file
      when it does not. */
  lemma NegativeRead(f: Open, start: nat, n: int)
    requires Sound(f.st, start, f.ip) && f.off < UINT32 && -0x8000_0000 <= n < 0
    ensures var r := FileRead(f, {}, n);
      && (r.1.ret == -1 <==> f.off > f.ip.d.size || f.off >= -n)
      && (r.1.ret != -1 ==> r.1.bytes == FileBytes(f.st, start, f.ip)[f.off..])
  {
    hide Sound, InodeRead, Span, Overruns, FileBytes;
    SoundParts(f.st, start, f.ip);
    assert n % UINT32 == UINT32 + n;
    ReadOutcome(f.st, {}, start, f.ip, f.off, UINT32 + n);
  }
}
