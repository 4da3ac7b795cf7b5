/** Little-endian integers inside byte buffers, as the kernel's struct overlays read them. */
module Bytes {
  type Byte = b: int | 0 <= b < 256

  /** Bytes of `v`, least significant first, truncated to `k` bytes. */
  function ToLe(v: nat, k: nat): (s: seq<Byte>)
    ensures |s| == k
  {
    if k == 0 then [] else [v % 256] + ToLe(v / 256, k - 1)
  }

  lemma NextByte(v: nat, k: nat)
    ensures ToLe(v, k + 1) == [v % 0x100] + ToLe(v / 0x100, k)
    ensures ToLe(v, 0) == []
  {
  }

  lemma Quotients(v: nat)
    ensures v / 0x100 / 0x100 == v / 0x1_0000 && v / 0x1_0000 / 0x100 == v / 0x100_0000
  {
  }

  /** The four bytes of a 32-bit word, and the two of a 16-bit one, where a little-endian processor puts them. */
  lemma LittleEndian(v: nat)
    ensures ToLe(v, 4) == [v % 0x100, v / 0x100 % 0x100, v / 0x1_0000 % 0x100, v / 0x100_0000 % 0x100]
    ensures ToLe(v, 2) == [v % 0x100, v / 0x100 % 0x100]
  {
    hide ToLe;
    Quotients(v);
    NextByte(v, 3);
    NextByte(v, 1);
    NextByte(v / 0x100, 2);
    NextByte(v / 0x100, 0);
    NextByte(v / 0x1_0000, 1);
    NextByte(v / 0x1_0000, 0);
    NextByte(v / 0x100_0000, 0);
    NextByte(v / 0x100_0000 / 0x100, 0);
  }

  function FromLe(s: seq<Byte>): nat {
    if s == [] then 0 else s[0] + 256 * FromLe(s[1..])
  }

  function Pow256(k: nat): (r: nat)
    ensures r >= 1
  {
    if k == 0 then 1 else 256 * Pow256(k - 1)
  }

  /** Storing an integer and loading it back truncates it to the field's width, nothing else. */
  lemma {:induction false} LeRoundTrip(v: nat, k: nat)
    ensures v < Pow256(k) ==> FromLe(ToLe(v, k)) == v
  {
    if k == 0 {
    } else {
      LeRoundTrip(v / 256, k - 1);
      assert ToLe(v, k)[1..] == ToLe(v / 256, k - 1);
    }
  }

  lemma FitsWord(v: nat)
    requires v < 0x1_0000_0000
    ensures v < Pow256(4)
  {
    assert Pow256(4) == 256 * (256 * (256 * (256 * Pow256(0))));
  }

  lemma FitsHalf(v: nat)
    requires v < 0x1_0000
    ensures v < Pow256(2)
  {
    assert Pow256(2) == 256 * (256 * Pow256(0));
  }

  /** `s` with `|p|` bytes overwritten from position `at`. */
  function Patch(s: seq<Byte>, at: nat, p: seq<Byte>): (r: seq<Byte>)
    requires at + |p| <= |s|
    ensures |r| == |s|
    ensures forall i :: 0 <= i < |s| ==> r[i] == if at <= i < at + |p| then p[i - at] else s[i]
  {
    s[..at] + p + s[at + |p|..]
  }

  lemma PatchParts(s: seq<Byte>, at: nat, p: seq<Byte>, i: nat, j: nat)
    requires at + |p| <= |s| && i <= j <= |p|
    ensures Patch(s, at, p)[at + i..at + j] == p[i..j] && Patch(s, at, p)[at + |p|..] == s[at + |p|..]
  {
  }

  /** An array of 32-bit words. */
  function Words(ws: seq<nat>): (s: seq<Byte>)
    ensures |s| == 4 * |ws|
  {
    if ws == [] then [] else Words(ws[..|ws| - 1]) + ToLe(ws[|ws| - 1], 4)
  }

  function WordAt(s: seq<Byte>, at: nat): nat
    requires at + 4 <= |s|
  {
    FromLe(s[at..at + 4])
  }

  lemma {:induction false} WordsAt(ws: seq<nat>, i: nat)
    requires i < |ws| && forall j :: 0 <= j < |ws| ==> ws[j] < 0x1_0000_0000
    ensures WordAt(Words(ws), 4 * i) == ws[i]
  {
    var n := |ws| - 1;
    if i == n {
      assert Words(ws)[4 * i..4 * i + 4] == ToLe(ws[n], 4);
      FitsWord(ws[n]);
      LeRoundTrip(ws[n], 4);
    } else {
      WordsAt(ws[..n], i);
      assert Words(ws)[4 * i..4 * i + 4] == Words(ws[..n])[4 * i..4 * i + 4];
    }
  }
}
