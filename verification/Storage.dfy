/** Blocks and the disk: one block write is atomic, and is the unit a crash can fall between. */
module Storage {
  import opened Params
  import opened Bytes

  type Block = b: seq<Byte> | |b| == BSIZE witness seq(BSIZE, _ => 0)
  type Disk = seq<Block>

  datatype Write = Write(block: nat, data: Block)

  predicate InRange(d: Disk, ws: seq<Write>) {
    forall i :: 0 <= i < |ws| ==> ws[i].block < |d|
  }

  /** The disk after performing the writes in order. */
  function Perform(d: Disk, ws: seq<Write>): (r: Disk)
    requires InRange(d, ws)
    ensures |r| == |d|
  {
    if ws == [] then d
    else
      var n := |ws| - 1;
      Perform(d, ws[..n])[ws[n].block := ws[n].data]
  }

  lemma {:induction false} PerformSplit(d: Disk, a: seq<Write>, b: seq<Write>)
    requires InRange(d, a) && InRange(d, b)
    ensures InRange(d, a + b) && Perform(d, a + b) == Perform(Perform(d, a), b)
  {
    assert InRange(d, a + b);
    if b == [] {
      assert a + b == a;
    } else {
      var n := |b| - 1;
      PerformSplit(d, a, b[..n]);
      assert (a + b)[..|a| + n] == a + b[..n];
    }
  }

  lemma PerformNext(d: Disk, ws: seq<Write>, k: nat)
    requires InRange(d, ws) && k < |ws|
    ensures InRange(d, ws[..k]) && InRange(d, ws[..k + 1])
    ensures Perform(d, ws[..k + 1]) == Perform(d, ws[..k])[ws[k].block := ws[k].data]
  {
    assert ws[..k + 1][..k] == ws[..k];
  }

  /** Index of the first occurrence of `b`, or `|s|`. */
  function IndexOf(s: seq<nat>, b: nat): (i: nat)
    ensures i <= |s|
    ensures i < |s| ==> s[i] == b
    ensures forall j :: 0 <= j < i ==> s[j] != b
  {
    if s == [] then 0 else if s[0] == b then 0 else 1 + IndexOf(s[1..], b)
  }

  predicate Distinct(s: seq<nat>) {
    forall i, j :: 0 <= i < j < |s| ==> s[i] != s[j]
  }

  /** The data of the last write of block `b`, `before` when there is none. */
  function LastData(ws: seq<Write>, b: nat, before: Block): Block
    decreases |ws|
  {
    if ws == [] then before else LastData(ws[1..], b, if ws[0].block == b then ws[0].data else before)
  }

  /** The blocks written. */
  function BlocksOf(ws: seq<Write>): (r: set<nat>)
    ensures forall i :: 0 <= i < |ws| ==> ws[i].block in r
  {
    if ws == [] then {} else {ws[0].block} + BlocksOf(ws[1..])
  }

  lemma BlocksNext(ws: seq<Write>)
    requires ws != []
    ensures BlocksOf(ws) == {ws[0].block} + BlocksOf(ws[1..])
  {
  }
}
