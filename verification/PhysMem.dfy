/** kernel/mem/physmem.c: one bit per page, set when the page is free. */
module PhysMem {
  const PAGE_SIZE: nat := 4096
  const NUM_PAGES: nat := 32768
  const KERNEL_BASE_ADDR: nat := 0x8000_0000
  const PHYS_MEM_SIZE: nat := PAGE_SIZE * NUM_PAGES
  const UINT64: nat := 0x1_0000_0000_0000_0000

  /** Bit `k` of a bitmap byte. */
  predicate Bit(b: bv8, k: nat)
    requires k < 8
  {
    (b >> k) & 1 == 1
  }

  function WithBit(b: bv8, k: nat): bv8
    requires k < 8
  {
    b | (1 << k)
  }

  function WithoutBit(b: bv8, k: nat): bv8
    requires k < 8
  {
    b & !(1 << k)
  }

  function Mask(k: nat): bv8
    requires k < 8
  {
    if k == 0 then 1 else if k == 1 then 2 else if k == 2 then 4 else if k == 3 then 8
    else if k == 4 then 16 else if k == 5 then 32 else if k == 6 then 64 else 128
  }

  lemma BitIsMask(b: bv8, k: nat)
    requires k < 8
    ensures Bit(b, k) == (b & Mask(k) != 0)
  {
  }

  lemma ShiftIsMask(k: nat)
    requires k < 8
    ensures (1 as bv8) << k == Mask(k)
  {
  }

  lemma MasksApart(i: nat, j: nat)
    requires i < 8 && j < 8
    ensures Mask(i) & Mask(j) == if i == j then Mask(i) else 0
    ensures Mask(i) != 0
  {
  }

  lemma OrMask(b: bv8, m: bv8, n: bv8)
    ensures m & n == 0 ==> (b | m) & n == b & n
    ensures m & n == n ==> (b | m) & n == n
  {
  }

  lemma AndNotMask(b: bv8, m: bv8, n: bv8)
    ensures m & n == 0 ==> (b & !m) & n == b & n
    ensures m & n == n ==> (b & !m) & n == 0
  {
  }

  lemma BitSet(b: bv8, i: nat, j: nat)
    requires i < 8 && j < 8
    ensures Bit(WithBit(b, i), j) == (j == i || Bit(b, j))
  {
    hide Bit, Mask;
    BitIsMask(b, j);
    BitIsMask(WithBit(b, i), j);
    ShiftIsMask(i);
    MasksApart(i, j);
    OrMask(b, Mask(i), Mask(j));
  }

  lemma BitClear(b: bv8, i: nat, j: nat)
    requires i < 8 && j < 8
    ensures Bit(WithoutBit(b, i), j) == (j != i && Bit(b, j))
  {
    hide Bit, Mask;
    BitIsMask(b, j);
    BitIsMask(WithoutBit(b, i), j);
    ShiftIsMask(i);
    MasksApart(i, j);
    AndNotMask(b, Mask(i), Mask(j));
  }

  lemma BitFull(j: nat)
    requires j < 8
    ensures Bit(0xFF, j)
  {
  }

  /** Pages whose bit is set. */
  ghost function FreeSet(bm: seq<bv8>): (s: set<nat>)
    ensures forall i: nat :: i in s <==> i < 8 * |bm| && Bit(bm[i / 8], i % 8)
  {
    set i: nat | i < 8 * |bm| && Bit(bm[i / 8], i % 8)
  }

  /** Changing one bit changes one page. */
  lemma SetOne(bm: seq<bv8>, p: nat)
    requires p < 8 * |bm|
    ensures FreeSet(bm[p / 8 := WithBit(bm[p / 8], p % 8)]) == FreeSet(bm) + {p}
  {
    var bm' := bm[p / 8 := WithBit(bm[p / 8], p % 8)];
    hide Bit, WithBit;
    forall i: nat | i < 8 * |bm| ensures Bit(bm'[i / 8], i % 8) == (i == p || Bit(bm[i / 8], i % 8)) {
      BitSet(bm[p / 8], p % 8, i % 8);
    }
  }

  lemma ClearOne(bm: seq<bv8>, p: nat)
    requires p < 8 * |bm|
    ensures FreeSet(bm[p / 8 := WithoutBit(bm[p / 8], p % 8)]) == FreeSet(bm) - {p}
  {
    var bm' := bm[p / 8 := WithoutBit(bm[p / 8], p % 8)];
    hide Bit, WithoutBit;
    forall i: nat | i < 8 * |bm| ensures Bit(bm'[i / 8], i % 8) == (i != p && Bit(bm[i / 8], i % 8)) {
      BitClear(bm[p / 8], p % 8, i % 8);
    }
  }

  function Pages(lo: nat, hi: nat): (s: set<nat>)
    ensures forall i: nat :: i in s <==> lo <= i < hi
    ensures lo <= hi ==> |s| == hi - lo
    decreases hi
  {
    if lo >= hi then {} else Pages(lo, hi - 1) + {hi - 1}
  }

  lemma PagesNext(i: nat, n: nat)
    requires i < n
    ensures Pages(i, n) - {i} == Pages(i + 1, n)
  {
  }

  function AddrOf(i: nat): nat { KERNEL_BASE_ADDR + i * PAGE_SIZE }

  /** Address 0, or outside the managed range, names no page. */
  predicate Managed(addr: nat) { KERNEL_BASE_ADDR <= addr < KERNEL_BASE_ADDR + PHYS_MEM_SIZE }

  function PageOf(addr: nat): nat
    requires Managed(addr)
  {
    (addr - KERNEL_BASE_ADDR) / PAGE_SIZE
  }

  lemma AddrRoundTrip(i: nat, off: nat)
    requires i < NUM_PAGES && off < PAGE_SIZE
    ensures Managed(AddrOf(i) + off) && PageOf(AddrOf(i) + off) == i && AddrOf(i) != 0
  {
  }

  lemma PastTheKernel(size: nat, i: nat)
    ensures i * PAGE_SIZE >= size <==> i >= (size + PAGE_SIZE - 1) / PAGE_SIZE
  {
  }

  lemma PagesCount(lo: nat, hi: nat)
    ensures lo <= hi ==> |Pages(lo, hi)| == hi - lo
  {
  }

  lemma FreeCount(bm: seq<bv8>)
    ensures |FreeSet(bm)| <= 8 * |bm|
  {
    var all := Pages(0, 8 * |bm|);
    assert FreeSet(bm) <= all;
    assert all == FreeSet(bm) + (all - FreeSet(bm));
  }

  lemma OneDown(c: nat)
    requires c < UINT64
    ensures (c + (UINT64 - 1)) % UINT64 == if c == 0 then UINT64 - 1 else c - 1
  {
  }

  lemma CountWithout(s: set<nat>, i: nat)
    ensures |s - {i}| == if i in s then |s| - 1 else |s|
  {
    if i !in s {
      assert s - {i} == s;
    }
  }

  /** What is left past the kernel image. */
  lemma KernelPages(kernelEnd: nat, first: nat, n: nat)
    requires kernelEnd >= KERNEL_BASE_ADDR
    requires var f := (kernelEnd - KERNEL_BASE_ADDR + PAGE_SIZE - 1) / PAGE_SIZE; first == if f > n then n else f
    ensures forall i: nat :: i in Pages(first, n) <==> i < n && AddrOf(i) >= kernelEnd
  {
    forall i: nat | i < n ensures AddrOf(i) >= kernelEnd <==> i >= first {
      PastTheKernel(kernelEnd - KERNEL_BASE_ADDR, i);
    }
  }

  /** The page physmem_alloc_page hands out. */
  ghost predicate IsLowest(i: nat, free: set<nat>) {
    i in free && forall j :: j in free ==> i <= j
  }

  class Allocator {
    const bitmap: array<bv8>
    var freePages: nat

    constructor (bitmap: array<bv8>)
      requires bitmap.Length == NUM_PAGES / 8
      ensures this.bitmap == bitmap
    {
      this.bitmap, freePages := bitmap, 0;
    }

    ghost function Free(): set<nat>
      reads bitmap
    {
      FreeSet(bitmap[..])
    }

    /** free_pages_count is the number of set bits. */
    ghost predicate Valid()
      reads this, bitmap
    {
      bitmap.Length == NUM_PAGES / 8 && freePages == |Free()|
    }

    lemma CountFits()
      requires Valid()
      ensures freePages <= NUM_PAGES
    {
      FreeCount(bitmap[..]);
    }

    predicate IsPageFree(i: nat)
      requires bitmap.Length == NUM_PAGES / 8 && i < NUM_PAGES
      reads bitmap
      ensures IsPageFree(i) <==> i in Free()
    {
      Bit(bitmap[i / 8], i % 8)
    }

    /** Sets the bit and counts one page up, whatever the bit was: a page that is free already is counted twice. */
    method MarkPageFree(i: nat)
      requires bitmap.Length == NUM_PAGES / 8 && freePages < UINT64 && i < NUM_PAGES
      modifies `freePages, bitmap
      ensures Free() == old(Free()) + {i} && freePages == (old(freePages) + 1) % UINT64
      ensures old(Valid()) ==> (Valid() <==> i !in old(Free()))
    {
      hide FreeSet, Bit, WithBit, WithoutBit;
      SetOne(bitmap[..], i);
      FreeCount(bitmap[..]);
      ghost var bm := bitmap[..];
      bitmap[i / 8] := WithBit(bitmap[i / 8], i % 8);
      freePages := (freePages + 1) % UINT64;
      assert bitmap[..] == bm[i / 8 := WithBit(bm[i / 8], i % 8)];
    }

    /** Clears the bit and counts one page down, whatever the bit was. */
    method MarkPageAllocated(i: nat)
      requires bitmap.Length == NUM_PAGES / 8 && freePages < UINT64 && i < NUM_PAGES
      modifies `freePages, bitmap
      ensures Free() == old(Free()) - {i} && freePages == (old(freePages) + (UINT64 - 1)) % UINT64
      ensures old(Valid()) ==> (Valid() <==> i in old(Free()))
    {
      hide FreeSet, Bit, WithBit, WithoutBit;
      ClearOne(bitmap[..], i);
      FreeCount(bitmap[..]);
      ghost var bm := bitmap[..];
      bitmap[i / 8] := WithoutBit(bitmap[i / 8], i % 8);
      assert bitmap[..] == bm[i / 8 := WithoutBit(bm[i / 8], i % 8)];
      CountWithout(old(Free()), i);
      OneDown(freePages);
      freePages := (freePages + (UINT64 - 1)) % UINT64;
    }

    /** First loop of physmem_init. */
    method FillOnes()
      requires bitmap.Length == NUM_PAGES / 8
      modifies bitmap
      ensures Free() == Pages(0, 8 * bitmap.Length)
    {
      for k := 0 to bitmap.Length
        invariant forall j :: 0 <= j < k ==> bitmap[j] == 0xFF
      {
        bitmap[k] := 0xFF;
      }
      forall i: nat | i < NUM_PAGES ensures Bit(bitmap[i / 8], i % 8) {
        BitFull(i % 8);
      }
    }

    /** Last loop of physmem_init. */
    method ReserveFirst(first: nat)
      requires Valid() && Free() == Pages(0, 8 * bitmap.Length) && first <= NUM_PAGES
      modifies `freePages, bitmap
      ensures Valid() && Free() == Pages(first, 8 * bitmap.Length)
    {
      hide FreeSet, Bit, Pages, IsPageFree;
      ghost var n := 8 * bitmap.Length;
      for i := 0 to first
        invariant Valid() && Free() == Pages(i, n)
      {
        assert i in Free();
        if IsPageFree(i) {
          CountFits();
          MarkPageAllocated(i);
        }
        PagesNext(i, n);
      }
    }

    /** physmem_init for a kernel image ending at `kernelEnd`. */
    method Init(kernelEnd: nat)
      requires bitmap.Length == NUM_PAGES / 8 && kernelEnd >= KERNEL_BASE_ADDR
      modifies `freePages, bitmap
      ensures Valid()
      ensures forall i: nat :: i in Free() <==> i < NUM_PAGES && AddrOf(i) >= kernelEnd
    {
      hide FreeSet, Bit, Pages, AddrOf;
      PagesCount(0, 8 * bitmap.Length);
      FillOnes();
      freePages := NUM_PAGES;
      var first := (kernelEnd - KERNEL_BASE_ADDR + PAGE_SIZE - 1) / PAGE_SIZE;
      if first > NUM_PAGES {
        first := NUM_PAGES;
      }
      KernelPages(kernelEnd, first, 8 * bitmap.Length);
      ReserveFirst(first);
    }

    /** physmem_alloc_page: the lowest free page, or 0 when there is none. */
    method AllocPage() returns (addr: nat)
      requires Valid()
      modifies `freePages, bitmap
      ensures Valid()
      ensures if addr == 0 then old(Free()) == {} && Free() == {}
        else Managed(addr) && addr == AddrOf(PageOf(addr)) && IsLowest(PageOf(addr), old(Free()))
             && Free() == old(Free()) - {PageOf(addr)}
    {
      hide FreeSet, Bit, IsPageFree;
      for i := 0 to NUM_PAGES
        invariant Valid() && Free() == old(Free())
        invariant forall j: nat :: j < i ==> j !in Free()
      {
        if IsPageFree(i) {
          CountFits();
          MarkPageAllocated(i);
          AddrRoundTrip(i, 0);
          return AddrOf(i);
        }
      }
      return 0;
    }

    /** free_physical_page: freeing an unmanaged address or a free page changes nothing. */
    method FreePage(addr: nat)
      requires Valid()
      modifies `freePages, bitmap
      ensures Valid()
      ensures Free() == if Managed(addr) then old(Free()) + {PageOf(addr)} else old(Free())
    {
      if addr < KERNEL_BASE_ADDR || addr >= KERNEL_BASE_ADDR + PHYS_MEM_SIZE {
        return;
      }
      var i := (addr - KERNEL_BASE_ADDR) / PAGE_SIZE;
      if i >= NUM_PAGES {
        return;
      }
      if !IsPageFree(i) {
        CountFits();
        MarkPageFree(i);
      }
    }
  }
}
