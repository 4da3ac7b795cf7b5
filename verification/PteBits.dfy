/** The bit expressions of include/kernel/mem/virtual_memory.h, on 64-bit words, and the numbers they stand for. */
module PteBits {
  import P = PageTable

  const PTE_V: bv64 := 1
  const PTE_ADDR_MASK: bv64 := 0x3FFF_FFFF_FC00

  function PteAddr(pte: bv64): bv64 { pte & PTE_ADDR_MASK }
  function MakePte(phys: bv64, flags: bv64): bv64 { (phys & PTE_ADDR_MASK) | flags }
  function Vpn2(va: bv64): bv64 { (va >> 30) & 0x1FF }
  function Vpn1(va: bv64): bv64 { (va >> 21) & 0x1FF }
  function Vpn0(va: bv64): bv64 { (va >> 12) & 0x1FF }
  function PageNumber(va: bv64): bv64 { (va >> 12) & 0x7FF_FFFF }

  /** An entry gives back its address and its valid bit when the flags stay below bit 10. */
  lemma EntryRoundTrip(phys: bv64, flags: bv64)
    requires flags >> 10 == 0
    ensures PteAddr(MakePte(phys, flags | PTE_V)) == PteAddr(phys)
    ensures MakePte(phys, flags | PTE_V) & PTE_V == PTE_V
    ensures phys & 0x3FF == 0 && phys >> 46 == 0 ==> PteAddr(phys) == phys
  {
  }

  /** The three indices are the digits of the page number. */
  lemma IndicesAreDigits(va: bv64)
    ensures PageNumber(va) == (Vpn2(va) << 18) | (Vpn1(va) << 9) | Vpn0(va)
  {
  }

  // ---- words as numbers ---------------------------------------------------

  function Half(x: bv64): bv64 { x >> 1 }
  function Down3(x: bv64): bv64 { x >> 3 }
  function Down9(x: bv64): bv64 { x >> 9 }
  function Bit(x: bv64): (b: nat) ensures b < 2 { if x & 1 == 1 then 1 else 0 }

  /** The number a word stands for. */
  function Value(x: bv64): nat {
    if x == 0 then 0 else 2 * Value(Half(x)) + Bit(x)
  }

  lemma Halved(x: bv64)
    ensures Value(x) == 2 * Value(Half(x)) + Bit(x)
  {
    if x == 0 {
      assert Half(x) == 0;
    }
  }

  lemma Thrice(x: bv64)
    ensures Down3(x) == Half(Half(Half(x))) && Down9(x) == Down3(Down3(Down3(x)))
  {
  }

  lemma ValueDown3(x: bv64)
    ensures Value(Down3(x)) == Value(x) / 8
  {
    hide Value, Half, Bit, Down3;
    Thrice(x);
    Halved(x);
    Halved(Half(x));
    Halved(Half(Half(x)));
  }

  lemma ValueDown9(x: bv64)
    ensures Value(Down9(x)) == Value(x) / 0x200
  {
    hide Value, Down3, Down9, Half;
    Thrice(x);
    ValueDown3(x);
    ValueDown3(Down3(x));
    ValueDown3(Down3(Down3(x)));
  }

  lemma Clear3(x: bv64)
    requires x & 7 == 0
    ensures Bit(x) == 0 && Bit(Half(x)) == 0 && Bit(Half(Half(x))) == 0
  {
  }

  lemma Exact3(x: bv64)
    requires x & 7 == 0
    ensures Value(x) == 8 * Value(Down3(x))
  {
    Clear3(x);
    hide Value, Half, Bit, Down3;
    Thrice(x);
    Halved(x);
    Halved(Half(x));
    Halved(Half(Half(x)));
  }

  lemma Clear9(x: bv64)
    requires x & 0x1FF == 0
    ensures x & 7 == 0 && Down3(x) & 7 == 0 && Down3(Down3(x)) & 7 == 0
  {
  }

  lemma Exact9(x: bv64)
    requires x & 0x1FF == 0
    ensures Value(x) == 0x200 * Value(Down9(x))
  {
    Clear9(x);
    Thrice(x);
    hide Value, Half, Down3, Down9;
    Exact3(x);
    Exact3(Down3(x));
    Exact3(Down3(Down3(x)));
  }

  lemma OrHalves(a: bv64, b: bv64)
    requires a & b == 0
    ensures Half(a | b) == Half(a) | Half(b) && Half(a) & Half(b) == 0
    ensures (a | b) & 1 == (a & 1) | (b & 1) && (a & 1) & (b & 1) == 0
  {
  }

  lemma OrBit(a: bv64, b: bv64)
    requires a & b == 0
    ensures Bit(a | b) == Bit(a) + Bit(b)
  {
    assert a & 1 == 0 || a & 1 == 1;
    assert b & 1 == 0 || b & 1 == 1;
    OrHalves(a, b);
  }

  lemma HalfLess(x: bv64)
    requires x != 0
    ensures Half(x) < x
  {
  }

  function Or(a: bv64, b: bv64): bv64 { a | b }

  predicate Apart(a: bv64, b: bv64) { a & b == 0 }

  lemma OrSteps(a: bv64, b: bv64)
    requires Apart(a, b)
    ensures Or(a, b) == 0 ==> a == 0 && b == 0
    ensures Half(Or(a, b)) == Or(Half(a), Half(b)) && Apart(Half(a), Half(b)) && Bit(Or(a, b)) == Bit(a) + Bit(b)
  {
    OrHalves(a, b);
    OrBit(a, b);
  }

  lemma ZeroIs()
    ensures Value(0) == 0
  {
  }

  lemma {:induction false} Positive(x: bv64)
    requires x != 0
    ensures Value(x) > 0
  {
    if Bit(x) == 0 {
      EvenHalf(x);
      HalfLess(x);
      Positive(Half(x));
    }
  }

  lemma EvenHalf(x: bv64)
    requires x != 0 && Bit(x) == 0
    ensures Half(x) != 0
  {
  }

  /** Words with no common bit: or is plus. */
  lemma {:induction false} OrAdds(a: bv64, b: bv64)
    requires Apart(a, b)
    ensures Value(Or(a, b)) == Value(a) + Value(b)
    decreases Value(Or(a, b))
  {
    hide Value, Half, Bit, Or, Apart;
    ZeroIs();
    OrSteps(a, b);
    if Or(a, b) != 0 {
      Positive(Or(a, b));
      Halved(a);
      Halved(b);
      Halved(Or(a, b));
      OrAdds(Half(a), Half(b));
    }
  }

  // ---- shifts and masks ---------------------------------------------------

  /** The low 9, 27 and 36 bits, and the rest. */
  const LOW9: bv64 := 0x1FF
  const LOW27: bv64 := 0x7FF_FFFF
  const LOW36: bv64 := 0xF_FFFF_FFFF

  function And(x: bv64, mask: bv64): bv64 { x & mask }
  function Rest(x: bv64, mask: bv64): bv64 { x & !mask }

  lemma SplitAt(x: bv64, mask: bv64)
    ensures Value(x) == Value(And(x, mask)) + Value(Rest(x, mask))
  {
    assert Or(And(x, mask), Rest(x, mask)) == x && Apart(And(x, mask), Rest(x, mask));
    hide Value, Or, Apart, And, Rest;
    OrAdds(And(x, mask), Rest(x, mask));
  }

  lemma Low9Steps(x: bv64)
    ensures Down9(And(x, LOW9)) == 0
  {
  }

  lemma Rest9Steps(x: bv64)
    ensures Rest(x, LOW9) & 0x1FF == 0
  {
  }

  lemma Low9Is(x: bv64)
    ensures Value(And(x, LOW9)) == Value(x) % 0x200
  {
    Low9Steps(x);
    Rest9Steps(x);
    hide Value, Down9, And, Rest;
    ZeroIs();
    SplitAt(x, LOW9);
    ValueDown9(And(x, LOW9));
    Exact9(Rest(x, LOW9));
  }

  function Down27(x: bv64): bv64 { Down9(Down9(Down9(x))) }

  lemma ValueDown27(x: bv64)
    ensures Value(Down27(x)) == Value(x) / 0x800_0000
  {
    hide Value, Down9;
    ValueDown9(x);
    ValueDown9(Down9(x));
    ValueDown9(Down9(Down9(x)));
  }

  lemma Exact27(x: bv64)
    requires And(x, LOW27) == 0
    ensures Value(x) == 0x800_0000 * Value(Down27(x))
  {
    assert x & 0x1FF == 0 && Down9(x) & 0x1FF == 0 && Down9(Down9(x)) & 0x1FF == 0;
    hide Value, Down9, And;
    Exact9(x);
    Exact9(Down9(x));
    Exact9(Down9(Down9(x)));
  }

  lemma Low27Steps(x: bv64)
    ensures Down27(And(x, LOW27)) == 0 && And(Rest(x, LOW27), LOW27) == 0
  {
  }

  lemma Low27Is(x: bv64)
    ensures Value(And(x, LOW27)) == Value(x) % 0x800_0000
  {
    Low27Steps(x);
    hide Value, Down27, And, Rest;
    ZeroIs();
    SplitAt(x, LOW27);
    ValueDown27(And(x, LOW27));
    Exact27(Rest(x, LOW27));
  }

  function Down36(x: bv64): bv64 { Down27(Down9(x)) }

  lemma Low36Steps(x: bv64)
    ensures Down36(And(x, LOW36)) == 0
  {
  }

  lemma Rest36Steps(x: bv64)
    ensures Rest(x, LOW36) & 0x1FF == 0
  {
  }

  lemma Rest36High(x: bv64)
    ensures And(Down9(Rest(x, LOW36)), LOW27) == 0
  {
  }

  lemma Quotient36(v: nat)
    ensures v / 0x200 / 0x800_0000 == v / 0x10_0000_0000
  {
  }

  lemma Low36Is(x: bv64)
    ensures Value(And(x, LOW36)) == Value(x) % 0x10_0000_0000
  {
    Low36Steps(x);
    Rest36Steps(x);
    Rest36High(x);
    hide Value, Down27, Down9, And, Rest;
    ZeroIs();
    SplitAt(x, LOW36);
    ValueDown9(And(x, LOW36));
    ValueDown27(Down9(And(x, LOW36)));
    Quotient36(Value(And(x, LOW36)));
    Exact9(Rest(x, LOW36));
    Exact27(Down9(Rest(x, LOW36)));
  }

  // ---- the page table's arithmetic is the source's bit expressions --------

  lemma Shift12(va: bv64)
    ensures va >> 12 == Down3(Down9(va))
  {
  }

  lemma Shift21(va: bv64)
    ensures va >> 21 == Down9(va >> 12)
  {
  }

  lemma Shift30(va: bv64)
    ensures va >> 30 == Down9(va >> 21)
  {
  }

  lemma IndicesAre(va: bv64)
    ensures Vpn0(va) == And(va >> 12, LOW9) && Vpn1(va) == And(va >> 21, LOW9) && Vpn2(va) == And(va >> 30, LOW9)
    ensures PageNumber(va) == And(va >> 12, LOW27)
  {
  }

  lemma IndexSteps(va: bv64)
    ensures var p := Down3(Down9(va));
      && Vpn0(va) == And(p, LOW9) && Vpn1(va) == And(Down9(p), LOW9) && Vpn2(va) == And(Down9(Down9(p)), LOW9)
      && PageNumber(va) == And(p, LOW27)
  {
    IndicesAre(va);
    Shift12(va);
    Shift21(va);
    Shift30(va);
    hide Down9, Down3, And, Vpn0, Vpn1, Vpn2, PageNumber;
  }

  lemma ShiftValues(va: bv64)
    ensures var p := Down3(Down9(va));
      && Value(p) == Value(va) / 0x1000 && Value(Down9(p)) == Value(va) / 0x20_0000
      && Value(Down9(Down9(p))) == Value(va) / 0x4000_0000
  {
    hide Value, Down9, Down3;
    var p := Down3(Down9(va));
    ValueDown9(va);
    ValueDown3(Down9(va));
    ValueDown9(p);
    ValueDown9(Down9(p));
  }

  /** The three indices and the page number of an address are those of the number it stands for. */
  lemma IndexValues(va: bv64)
    ensures Value(Vpn2(va)) == P.Vpn2(Value(va)) && Value(Vpn1(va)) == P.Vpn1(Value(va)) && Value(Vpn0(va)) == P.Vpn0(Value(va))
    ensures Value(PageNumber(va)) == P.PageNumber(Value(va))
  {
    hide Value, Down9, Down3, And, Vpn0, Vpn1, Vpn2, PageNumber;
    IndexSteps(va);
    ShiftValues(va);
    var p := Down3(Down9(va));
    Low9Is(p);
    Low9Is(Down9(p));
    Low9Is(Down9(Down9(p)));
    Low27Is(p);
  }

  lemma AddressClear(pte: bv64)
    ensures PteAddr(pte) & 0x1FF == 0
  {
  }

  lemma AddressEven(pte: bv64)
    ensures Down9(PteAddr(pte)) & 1 == 0
  {
  }

  lemma Shift10(x: bv64)
    ensures Half(Down9(x)) == x >> 10
  {
  }

  lemma FieldMask(pte: bv64)
    ensures (pte & PTE_ADDR_MASK) >> 10 == (pte >> 10) & LOW36
  {
  }

  lemma AddressField(pte: bv64)
    ensures Half(Down9(PteAddr(pte))) == And(Half(Down9(pte)), LOW36)
  {
    FieldMask(pte);
    Shift10(pte);
    Shift10(PteAddr(pte));
    hide Half, Down9;
  }

  lemma AddressSteps(pte: bv64)
    ensures PteAddr(pte) & 0x1FF == 0 && Bit(Down9(PteAddr(pte))) == 0
    ensures Half(Down9(PteAddr(pte))) == And(Half(Down9(pte)), LOW36)
  {
    AddressClear(pte);
    AddressEven(pte);
    AddressField(pte);
    hide PteAddr, Down9, Half, And;
  }

  lemma AddressValue(pte: bv64)
    ensures Value(PteAddr(pte)) == P.PteAddr(Value(pte))
  {
    hide Value, Down9, Half, Bit, And, PteAddr;
    AddressSteps(pte);
    ValueDown9(pte);
    Halved(Down9(pte));
    Low36Is(Half(Down9(pte)));
    Exact9(PteAddr(pte));
    Halved(Down9(PteAddr(pte)));
  }

  lemma EntrySteps(phys: bv64, flags: bv64)
    requires flags >> 10 == 0
    ensures MakePte(phys, flags) == Or(PteAddr(phys), flags) && Apart(PteAddr(phys), flags) && Half(Down9(flags)) == 0
  {
  }

  lemma ValidBit(flags: bv64)
    ensures (flags | PTE_V) & 1 == 1 && (flags & PTE_V == flags & 1)
  {
  }

  lemma ValidHalf(flags: bv64)
    ensures Half(flags | PTE_V) == Half(flags)
  {
  }

  lemma ValidFits(flags: bv64)
    requires flags >> 10 == 0
    ensures (flags | PTE_V) >> 10 == 0
  {
  }

  lemma ValidSteps(flags: bv64)
    requires flags >> 10 == 0
    ensures Bit(flags | PTE_V) == 1 && Half(flags | PTE_V) == Half(flags)
    ensures (flags | PTE_V) >> 10 == 0
    ensures flags & PTE_V == PTE_V <==> Bit(flags) == 1
  {
    ValidBit(flags);
    ValidHalf(flags);
    ValidFits(flags);
    hide Half;
  }

  /** The valid bit of a word, and an entry made from an address and flags, as numbers. */
  lemma EntryValue(phys: bv64, flags: bv64)
    requires flags >> 10 == 0
    ensures Value(flags) < P.FLAGS && (flags & PTE_V == PTE_V <==> P.Present(Value(flags)))
    ensures Value(MakePte(phys, flags | PTE_V)) == P.NewEntry(Value(phys), Value(flags))
  {
    var valid := flags | PTE_V;
    ValidSteps(flags);
    EntrySteps(phys, flags);
    EntrySteps(phys, valid);
    hide Value, Down9, Half, Bit, Or, Apart, PteAddr, MakePte, P.PteAddr;
    ZeroIs();
    ValueDown9(flags);
    Halved(Down9(flags));
    Halved(flags);
    Halved(valid);
    OrAdds(PteAddr(phys), valid);
    AddressValue(phys);
  }
}
