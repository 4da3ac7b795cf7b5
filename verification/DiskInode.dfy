/** include/kernel/fs/inode.h: the 64-byte on-disk inode, eight to a block. Shorts are their 16-bit patterns. */
module DiskInode {
  import opened Params
  import opened Bytes
  import opened Storage

  const NADDR: nat := NDIRECT + 1
  const DSIZE: nat := 64
  const IPB: nat := BSIZE / DSIZE

  datatype Dinode = Dinode(kind: nat, major: nat, minor: nat, nlink: nat, size: nat, addrs: seq<nat>)

  predicate Fits(d: Dinode) {
    && d.kind < 0x1_0000 && d.major < 0x1_0000 && d.minor < 0x1_0000 && d.nlink < 0x1_0000 && d.size < UINT32
    && |d.addrs| == NADDR && forall i :: 0 <= i < NADDR ==> d.addrs[i] < UINT32
  }

  function Encode(d: Dinode): (s: seq<Byte>)
    requires |d.addrs| == NADDR
    ensures |s| == DSIZE
  {
    ToLe(d.kind, 2) + ToLe(d.major, 2) + ToLe(d.minor, 2) + ToLe(d.nlink, 2) + ToLe(d.size, 4) + Words(d.addrs)
  }

  function Decode(s: seq<Byte>): Dinode
    requires |s| == DSIZE
  {
    Dinode(FromLe(s[0..2]), FromLe(s[2..4]), FromLe(s[4..6]), FromLe(s[6..8]), FromLe(s[8..12]),
           seq(NADDR, i requires 0 <= i < NADDR => WordAt(s[12..], 4 * i)))
  }

  lemma HalfRoundTrip(v: nat)
    requires v < 0x1_0000
    ensures FromLe(ToLe(v, 2)) == v
  {
    hide ToLe, FromLe, Pow256;
    FitsHalf(v);
    LeRoundTrip(v, 2);
  }

  lemma WordRoundTrip(v: nat)
    requires v < UINT32
    ensures FromLe(ToLe(v, 4)) == v
  {
    hide ToLe, FromLe, Pow256;
    FitsWord(v);
    LeRoundTrip(v, 4);
  }

  /** An inode written to disk and read back is the same inode. */
  lemma EncodeRoundTrip(d: Dinode)
    requires Fits(d)
    ensures Decode(Encode(d)) == d
  {
    hide ToLe, FromLe, Words, WordAt;
    HalfRoundTrip(d.kind);
    HalfRoundTrip(d.major);
    HalfRoundTrip(d.minor);
    HalfRoundTrip(d.nlink);
    WordRoundTrip(d.size);
    var s := Encode(d);
    assert s[0..2] == ToLe(d.kind, 2);
    assert s[2..4] == ToLe(d.major, 2);
    assert s[4..6] == ToLe(d.minor, 2);
    assert s[6..8] == ToLe(d.nlink, 2);
    assert s[8..12] == ToLe(d.size, 4);
    assert s[12..] == Words(d.addrs);
    forall i: nat | i < NADDR ensures WordAt(s[12..], 4 * i) == d.addrs[i] {
      WordsAt(d.addrs, i);
    }
  }

  /** struct dinode: where each field stands in the 64 bytes. */
  lemma FieldPlaces(d: Dinode)
    requires Fits(d)
    ensures var s := Encode(d);
      && s[0..2] == ToLe(d.kind, 2) && s[2..4] == ToLe(d.major, 2) && s[4..6] == ToLe(d.minor, 2)
      && s[6..8] == ToLe(d.nlink, 2) && s[8..12] == ToLe(d.size, 4)
      && forall i: nat :: i < NADDR ==> WordAt(s, 12 + 4 * i) == d.addrs[i]
  {
    hide ToLe, FromLe, Words;
    var s := Encode(d);
    assert s[12..] == Words(d.addrs);
    forall i: nat | i < NADDR ensures WordAt(s, 12 + 4 * i) == d.addrs[i] {
      WordsAt(d.addrs, i);
      assert s[12 + 4 * i..12 + 4 * i + 4] == s[12..][4 * i..4 * i + 4];
    }
  }

  /** IBLOCK and the place of the inode in its block. */
  function BlockOf(start: nat, inum: nat): nat { inum / IPB + start }

  function PlaceOf(inum: nat): (at: nat)
    ensures at + DSIZE <= BSIZE
  {
    inum % IPB * DSIZE
  }

  function Load(st: Disk, start: nat, inum: nat): Dinode
    requires BlockOf(start, inum) < |st|
  {
    Decode(st[BlockOf(start, inum)][PlaceOf(inum)..PlaceOf(inum) + DSIZE])
  }

  function Save(st: Disk, start: nat, inum: nat, d: Dinode): (r: Disk)
    requires BlockOf(start, inum) < |st| && |d.addrs| == NADDR
    ensures |r| == |st|
  {
    var b := BlockOf(start, inum);
    st[b := Patch(st[b], PlaceOf(inum), Encode(d))]
  }

  lemma PlacesApart(i: nat, j: nat)
    requires i / IPB == j / IPB && i != j
    ensures PlaceOf(i) + DSIZE <= PlaceOf(j) || PlaceOf(j) + DSIZE <= PlaceOf(i)
  {
  }

  /** inode_update changes one inode and nothing else on the disk. */
  lemma SaveLoad(st: Disk, start: nat, inum: nat, d: Dinode)
    requires BlockOf(start, inum) < |st| && Fits(d)
    ensures Load(Save(st, start, inum, d), start, inum) == d
    ensures forall j: nat :: j != inum && BlockOf(start, j) < |st| ==> Load(Save(st, start, inum, d), start, j) == Load(st, start, j)
    ensures forall b :: 0 <= b < |st| && b != BlockOf(start, inum) ==> Save(st, start, inum, d)[b] == st[b]
  {
    hide Encode, Decode, PlaceOf, Fits;
    EncodedSize(d);
    EncodeRoundTrip(d);
    var r := Save(st, start, inum, d);
    var b, at := BlockOf(start, inum), PlaceOf(inum);
    PlaceFits(inum);
    assert r[b][at..at + DSIZE] == Encode(d);
    forall j: nat | j != inum && BlockOf(start, j) < |st| ensures Load(r, start, j) == Load(st, start, j) {
      if BlockOf(start, j) == b {
        PlacesApart(inum, j);
        PlaceFits(j);
        var to := PlaceOf(j);
        assert r[b][to..to + DSIZE] == st[b][to..to + DSIZE];
      }
    }
  }

  lemma EncodedSize(d: Dinode)
    requires Fits(d)
    ensures |d.addrs| == NADDR && |Encode(d)| == DSIZE
  {
  }

  lemma PlaceFits(inum: nat)
    ensures PlaceOf(inum) + DSIZE <= BSIZE
  {
  }
}
