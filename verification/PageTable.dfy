/** kernel/mem/paging.c: a three-level table in allocated pages, as a finite map from page numbers to entries.
    Masks of contiguous bits are written as quotients and remainders; PteBits has the same laws on words. */
module PageTable {
  import opened Wrappers
  import opened PhysMem

  const ENTRIES: nat := 512
  const FLAGS: nat := 1024
  const ADDR_SPAN: nat := 0x10_0000_0000
  const PTE_V: nat := 1

  /** Bits 45..10. */
  function PteAddr(pte: nat): nat { pte / FLAGS % ADDR_SPAN * FLAGS }

  predicate Present(pte: nat) { pte % 2 == 1 }

  /** flags | PTE_V */
  function WithValid(flags: nat): nat { if flags % 2 == 1 then flags else flags + 1 }

  function MakePte(phys: nat, flags: nat): nat
    requires flags < FLAGS
  {
    PteAddr(phys) + flags
  }

  function Vpn2(va: nat): (i: nat) ensures i < ENTRIES { va / 0x4000_0000 % ENTRIES }
  function Vpn1(va: nat): (i: nat) ensures i < ENTRIES { va / 0x20_0000 % ENTRIES }
  function Vpn0(va: nat): (i: nat) ensures i < ENTRIES { va / 0x1000 % ENTRIES }

  /** The 27-bit page number. */
  function PageNumber(va: nat): nat { va / 0x1000 % 0x800_0000 }

  lemma EntryRoundTrip(phys: nat, flags: nat)
    requires flags < FLAGS
    ensures WithValid(flags) < FLAGS && Present(MakePte(phys, WithValid(flags)))
    ensures PteAddr(MakePte(phys, WithValid(flags))) == PteAddr(phys)
    ensures phys % FLAGS == 0 && phys < FLAGS * ADDR_SPAN ==> PteAddr(phys) == phys
  {
  }

  lemma Halve(x: nat)
    ensures x / 0x20_0000 == x / 0x1000 / ENTRIES && x / 0x4000_0000 == x / 0x20_0000 / ENTRIES
  {
  }

  lemma RemainderIs(p: nat, s: nat, m: nat)
    requires p == s * 0x800_0000 + m && m < 0x800_0000
    ensures p % 0x800_0000 == m
  {
  }

  lemma Digits(p: nat)
    ensures p % 0x800_0000 == (p / ENTRIES / ENTRIES % ENTRIES * ENTRIES + p / ENTRIES % ENTRIES) * ENTRIES + p % ENTRIES
  {
    var q, d0 := p / ENTRIES, p % ENTRIES;
    var r, d1 := q / ENTRIES, q % ENTRIES;
    var s, d2 := r / ENTRIES, r % ENTRIES;
    assert p == q * ENTRIES + d0 && q == r * ENTRIES + d1 && r == s * ENTRIES + d2;
    RemainderIs(p, s, (d2 * ENTRIES + d1) * ENTRIES + d0);
  }

  lemma IndicesAreDigits(va: nat)
    ensures PageNumber(va) == (Vpn2(va) * ENTRIES + Vpn1(va)) * ENTRIES + Vpn0(va)
  {
    Halve(va);
    Digits(va / 0x1000);
  }

  lemma IndicesNamePage(va: nat, vb: nat)
    ensures PageNumber(va) == PageNumber(vb) <==> Vpn2(va) == Vpn2(vb) && Vpn1(va) == Vpn1(vb) && Vpn0(va) == Vpn0(vb)
  {
    IndicesAreDigits(va);
    IndicesAreDigits(vb);
  }

  // ---- what the processor makes of an entry -------------------------------

  /** In Sv39 bits 53 to 10 of an entry are the number of a 4096-byte page (section 4.4.1 of the RISC-V privileged
      architecture 1.12). */
  function Sv39Address(pte: nat): nat { pte / FLAGS % 0x1000_0000_0000 * PAGE_SIZE }

  /** The kernel puts the address itself into these bits, not the page number, so the processor takes an entry for
      four times the address PTE_ADDR reads out of it: for the same one exactly when that is 0. */
  lemma Sv39Disagrees(pte: nat)
    requires pte < FLAGS * ADDR_SPAN
    ensures Sv39Address(pte) == 4 * PteAddr(pte)
    ensures Sv39Address(pte) == PteAddr(pte) <==> PteAddr(pte) == 0
  {
    var n := pte / FLAGS;
    assert n < ADDR_SPAN;
    assert n % ADDR_SPAN == n && n % 0x1000_0000_0000 == n;
  }

  // ---- the tree -----------------------------------------------------------

  /** Physical memory, by page address: 512 words a page. */
  type Mem = map<nat, seq<nat>>

  /** What an interior page is for: the root, the level-1 table below root entry `i`, or the level-0 table
      below entry `j` of that one. */
  datatype Role = Root | Mid(i: nat) | Leaf(i: nat, j: nat)

  function Below(r: Role, k: nat): Role
    requires !r.Leaf?
  {
    if r.Root? then Mid(k) else Leaf(r.i, k)
  }

  /** The table that entry `k` of table `t` points to. */
  function Next(mem: Mem, t: nat, k: nat): Option<nat> {
    if t in mem && k < |mem[t]| && Present(mem[t][k]) then Some(PteAddr(mem[t][k])) else None
  }

  function LeafTable(mem: Mem, root: nat, i: nat, j: nat): Option<nat> {
    match Next(mem, root, i)
    case None => None
    case Some(m) => Next(mem, m, j)
  }

  /** The present entry for indices `i`, `j`, `k`. */
  function EntryAt(mem: Mem, root: nat, i: nat, j: nat, k: nat): Option<nat> {
    match LeafTable(mem, root, i, j)
    case None => None
    case Some(t) => if t in mem && k < |mem[t]| && Present(mem[t][k]) then Some(mem[t][k]) else None
  }

  predicate TablePage(mem: Mem, p: nat) {
    p in mem && |mem[p]| == ENTRIES && 0 < p < FLAGS * ADDR_SPAN && p % FLAGS == 0
  }

  /** Page `p` is linked where its role says. */
  predicate Linked(mem: Mem, root: nat, p: nat, r: Role) {
    match r
    case Root => p == root
    case Mid(i) => i < ENTRIES && Next(mem, root, i) == Some(p)
    case Leaf(i, j) => i < ENTRIES && j < ENTRIES && LeafTable(mem, root, i, j) == Some(p)
  }

  /** `role` names exactly the tables reachable from `root`, each with one role, so all are distinct. */
  ghost predicate Tree(mem: Mem, root: nat, role: map<nat, Role>) {
    && root in role && role[root] == Root
    && (forall p :: p in role ==> TablePage(mem, p) && Linked(mem, root, p, role[p]))
    && (forall p, k :: p in role && !role[p].Leaf? && 0 <= k < ENTRIES && Next(mem, p, k).Some? ==>
         Next(mem, p, k).value in role && role[Next(mem, p, k).value] == Below(role[p], k))
  }

  /** Every present entry above the leaves is a bare pointer: none of its permission bits is set, or the processor
      would take it for a mapping (section 4.3.2 of the RISC-V privileged architecture 1.12). */
  ghost predicate Pointers(mem: Mem, role: map<nat, Role>) {
    forall p, k :: p in role && p in mem && !role[p].Leaf? && 0 <= k < |mem[p]| && Present(mem[p][k]) ==>
      mem[p][k] % FLAGS == PTE_V
  }

  lemma PointerFlags(q: nat)
    ensures MakePte(q, PTE_V) % FLAGS == PTE_V
  {
    var a := q / FLAGS % ADDR_SPAN;
    assert (a * FLAGS + PTE_V) % FLAGS == PTE_V;
  }

  lemma PointersGrow(mem: Mem, role: map<nat, Role>, t: nat, k: nat, q: nat, r: Role)
    requires Pointers(mem, role) && t in role && !role[t].Leaf? && t in mem && k < |mem[t]| && q !in role && q != t
    ensures Pointers(Link(mem, t, k, q), role[q := r])
  {
    PointerFlags(q);
    hide MakePte, Present;
    assert forall y :: 0 <= y < ENTRIES ==> !Present(Zeros()[y]) by { ZerosAbsent(); }
  }

  lemma ZerosAbsent()
    ensures forall y :: 0 <= y < ENTRIES ==> !Present(Zeros()[y])
  {
  }

  lemma PointersSetLeaf(mem: Mem, role: map<nat, Role>, t: nat, k: nat, v: nat)
    requires Pointers(mem, role) && t in role && role[t].Leaf? && t in mem && k < |mem[t]|
    ensures Pointers(Store(mem, t, k, v), role)
  {
    hide Present;
  }

  function Zeros(): (s: seq<nat>)
    ensures |s| == ENTRIES && forall i :: 0 <= i < ENTRIES ==> s[i] == 0
  {
    seq(ENTRIES, _ => 0)
  }

  /** One word of a page. */
  function Store(mem: Mem, t: nat, k: nat, v: nat): Mem
    requires t in mem && k < |mem[t]|
  {
    var page: seq<nat> := mem[t][k := v];
    mem[t := page]
  }

  /** Entry `k` of table `t` points to the zeroed page `q`. */
  function Link(mem: Mem, t: nat, k: nat, q: nat): Mem
    requires t in mem && k < |mem[t]|
  {
    Store(mem, t, k, MakePte(q, PTE_V))[q := Zeros()]
  }

  ghost predicate SameEntries(mem: Mem, mem': Mem, root: nat) {
    forall i: nat, j: nat, k: nat :: EntryAt(mem', root, i, j, k) == EntryAt(mem, root, i, j, k)
  }

  /** How one more link changes the steps through the tree. */
  lemma LinkSteps(mem: Mem, root: nat, role: map<nat, Role>, t: nat, k: nat, q: nat)
    requires Tree(mem, root, role) && t in role && k < ENTRIES && q !in role
    requires q % FLAGS == 0 && 0 < q < FLAGS * ADDR_SPAN
    ensures var mem' := Link(mem, t, k, q);
      && Next(mem', t, k) == Some(q)
      && (forall x: nat, y: nat :: x in role && !(x == t && y == k) ==> Next(mem', x, y) == Next(mem, x, y))
      && (forall y: nat :: Next(mem', q, y) == None)
      && (forall x :: x in role ==> TablePage(mem', x)) && TablePage(mem', q)
      && (forall x :: x in role && x != t ==> mem'[x] == mem[x])
  {
    EntryRoundTrip(q, PTE_V);
    hide PteAddr, MakePte;
  }

  lemma LinkEntries(mem: Mem, root: nat, role: map<nat, Role>, t: nat, k: nat, q: nat)
    requires Tree(mem, root, role) && t in role && !role[t].Leaf? && k < ENTRIES && q !in role
    requires q % FLAGS == 0 && 0 < q < FLAGS * ADDR_SPAN && Next(mem, t, k).None?
    ensures SameEntries(mem, Link(mem, t, k, q), root)
    ensures forall i: nat, j: nat :: LeafTable(mem, root, i, j).Some? ==>
      LeafTable(Link(mem, t, k, q), root, i, j) == LeafTable(mem, root, i, j)
  {
    LinkSteps(mem, root, role, t, k, q);
    var mem' := Link(mem, t, k, q);
    assert forall y: nat :: y < ENTRIES ==> !Present(Zeros()[y]);
    hide Link, Present, PteAddr;
    forall i: nat, j: nat
      ensures LeafTable(mem, root, i, j).Some? ==> LeafTable(mem', root, i, j) == LeafTable(mem, root, i, j)
      ensures LeafTable(mem, root, i, j).None? ==> LeafTable(mem', root, i, j) in [None, Some(q)]
    {
      if root == t && i == k {
      } else {
        assert Next(mem', root, i) == Next(mem, root, i);
      }
    }
  }

  lemma LinkedAfter(mem: Mem, root: nat, role: map<nat, Role>, t: nat, k: nat, q: nat, p: nat)
    requires Tree(mem, root, role) && t in role && !role[t].Leaf? && k < ENTRIES && q !in role
    requires q % FLAGS == 0 && 0 < q < FLAGS * ADDR_SPAN && Next(mem, t, k).None?
    requires p in role || p == q
    ensures Linked(Link(mem, t, k, q), root, p, role[q := Below(role[t], k)][p])
  {
    LinkSteps(mem, root, role, t, k, q);
    var mem' := Link(mem, t, k, q);
    hide Link, Present, PteAddr, TablePage;
    assert Linked(mem, root, t, role[t]);
    if p in role {
      assert Linked(mem, root, p, role[p]);
      if role[p].Mid? {
        assert !(root == t && role[p].i == k);
      }
    } else if role[t].Mid? {
      assert Next(mem', root, role[t].i) == Next(mem, root, role[t].i);
    }
  }

  /** Linking a zeroed page below an empty entry keeps the tree and every mapping. */
  lemma GrowTree(mem: Mem, root: nat, role: map<nat, Role>, t: nat, k: nat, q: nat)
    requires Tree(mem, root, role) && t in role && !role[t].Leaf? && k < ENTRIES && q !in role
    requires q % FLAGS == 0 && 0 < q < FLAGS * ADDR_SPAN && Next(mem, t, k).None?
    ensures Tree(Link(mem, t, k, q), root, role[q := Below(role[t], k)])
    ensures SameEntries(mem, Link(mem, t, k, q), root) && Next(Link(mem, t, k, q), t, k) == Some(q)
  {
    LinkSteps(mem, root, role, t, k, q);
    LinkEntries(mem, root, role, t, k, q);
    var mem' := Link(mem, t, k, q);
    var role' := role[q := Below(role[t], k)];
    forall p | p in role' ensures Linked(mem', root, p, role'[p]) {
      LinkedAfter(mem, root, role, t, k, q, p);
    }
    hide Link, Present, PteAddr, SameEntries, Linked, Next;
  }

  /** Writing a leaf entry changes that mapping alone. */
  lemma SetLeaf(mem: Mem, root: nat, role: map<nat, Role>, i: nat, j: nat, t: nat, k: nat, v: nat)
    requires Tree(mem, root, role) && LeafTable(mem, root, i, j) == Some(t) && i < ENTRIES && j < ENTRIES && k < ENTRIES
    ensures t in role && role[t] == Leaf(i, j) && t in mem && |mem[t]| == ENTRIES
    ensures Tree(Store(mem, t, k, v), root, role)
    ensures forall x: nat, y: nat, z: nat :: x < ENTRIES && y < ENTRIES ==>
      EntryAt(Store(mem, t, k, v), root, x, y, z) ==
        if x == i && y == j && z == k then (if Present(v) then Some(v) else None) else EntryAt(mem, root, x, y, z)
  {
    LeafIsLeaf(mem, root, role, i, j, t);
    var mem' := Store(mem, t, k, v);
    assert forall p: nat, y: nat :: p != t ==> Next(mem', p, y) == Next(mem, p, y);
    hide PteAddr, Present;
    forall x: nat, y: nat | x < ENTRIES && y < ENTRIES
      ensures LeafTable(mem', root, x, y) == LeafTable(mem, root, x, y)
      ensures LeafTable(mem, root, x, y) == Some(t) ==> x == i && y == j
    {
      assert root != t;
      if LeafTable(mem, root, x, y).Some? {
        LeafIsLeaf(mem, root, role, x, y, LeafTable(mem, root, x, y).value);
      }
      if Next(mem, root, x).Some? {
        MidIsMid(mem, root, role, x);
      }
    }
    forall p | p in role ensures TablePage(mem', p) && Linked(mem', root, p, role[p]) {
      assert Linked(mem, root, p, role[p]);
    }
  }

  lemma MidIsMid(mem: Mem, root: nat, role: map<nat, Role>, i: nat)
    requires Tree(mem, root, role) && Next(mem, root, i).Some? && i < ENTRIES
    ensures Next(mem, root, i).value in role && role[Next(mem, root, i).value] == Mid(i)
  {
  }

  lemma LeafIsLeaf(mem: Mem, root: nat, role: map<nat, Role>, i: nat, j: nat, t: nat)
    requires Tree(mem, root, role) && LeafTable(mem, root, i, j) == Some(t) && i < ENTRIES && j < ENTRIES
    ensures t in role && role[t] == Leaf(i, j) && TablePage(mem, t)
  {
    MidIsMid(mem, root, role, i);
  }

  // ---- the code -----------------------------------------------------------

  /** Where a page-table entry lives. */
  datatype Loc = Loc(table: nat, idx: nat)

  /** The tree took exactly the pages that are no longer free; none is lost. */
  ghost predicate Took(free: set<nat>, role: map<nat, Role>, free': set<nat>, role': map<nat, Role>) {
    && free' <= free
    && (forall p :: p in role' && p !in role ==>
         Managed(p) && p == AddrOf(PageOf(p)) && PageOf(p) in free && PageOf(p) !in free')
    && (forall i :: i in free && i !in free' ==> AddrOf(i) in role' && AddrOf(i) !in role)
  }

  /** The tree got at most `n` more tables; the old ones keep their roles. */
  ghost predicate Wider(role: map<nat, Role>, role': map<nat, Role>, n: nat) {
    role.Keys <= role'.Keys && |role'.Keys - role.Keys| <= n && forall p :: p in role ==> role'[p] == role[p]
  }

  /** Pages outside the tree are as before. */
  ghost predicate Untouched(mem: Mem, mem': Mem, role': map<nat, Role>) {
    mem'.Keys == mem.Keys && forall p :: p in mem && p !in role' ==> mem'[p] == mem[p]
  }

  /** The tree took at most `n` pages and linked every page it took; all else is as before. */
  ghost predicate Grown(root: nat, mem: Mem, free: set<nat>, role: map<nat, Role>,
                        mem': Mem, free': set<nat>, role': map<nat, Role>, n: nat) {
    SameEntries(mem, mem', root) && Wider(role, role', n) && Took(free, role, free', role') && Untouched(mem, mem', role')
  }

  lemma GrownOne(root: nat, mem: Mem, free: set<nat>, role: map<nat, Role>, mem': Mem, free': set<nat>,
                 t: nat, k: nat, q: nat, r: Role)
    requires t in role && t in mem && k < |mem[t]| && q !in role && q in mem
    requires Managed(q) && q == AddrOf(PageOf(q)) && PageOf(q) in free
    requires SameEntries(mem, mem', root) && mem' == Link(mem, t, k, q) && free' == free - {PageOf(q)}
    ensures Grown(root, mem, free, role, mem', free', role[q := r], 1)
  {
    hide EntryAt, PageOf, AddrOf, Managed;
    assert role[q := r].Keys - role.Keys == {q};
  }

  lemma GrownNone(root: nat, mem: Mem, free: set<nat>, role: map<nat, Role>, n: nat)
    ensures Grown(root, mem, free, role, mem, free, role, n)
  {
    assert role.Keys - role.Keys == {};
  }

  lemma TookTwice(f0: set<nat>, r0: map<nat, Role>, f1: set<nat>, r1: map<nat, Role>, f2: set<nat>, r2: map<nat, Role>)
    requires Took(f0, r0, f1, r1) && Took(f1, r1, f2, r2) && r0.Keys <= r1.Keys <= r2.Keys
    ensures Took(f0, r0, f2, r2)
  {
    hide PageOf, AddrOf, Managed;
  }

  lemma WiderTwice(r0: map<nat, Role>, r1: map<nat, Role>, r2: map<nat, Role>, a: nat, b: nat)
    requires Wider(r0, r1, a) && Wider(r1, r2, b)
    ensures Wider(r0, r2, a + b)
  {
    assert r2.Keys - r0.Keys == (r1.Keys - r0.Keys) + (r2.Keys - r1.Keys);
  }

  lemma GrownTwice(root: nat, m0: Mem, f0: set<nat>, r0: map<nat, Role>, m1: Mem, f1: set<nat>, r1: map<nat, Role>,
                   m2: Mem, f2: set<nat>, r2: map<nat, Role>, a: nat, b: nat)
    requires Grown(root, m0, f0, r0, m1, f1, r1, a) && Grown(root, m1, f1, r1, m2, f2, r2, b)
    ensures Grown(root, m0, f0, r0, m2, f2, r2, a + b)
  {
    TookTwice(f0, r0, f1, r1, f2, r2);
    WiderTwice(r0, r1, r2, a, b);
    hide EntryAt, Took;
  }

  lemma GrownWider(root: nat, m0: Mem, f0: set<nat>, r0: map<nat, Role>, m1: Mem, f1: set<nat>, r1: map<nat, Role>)
    requires Grown(root, m0, f0, r0, m1, f1, r1, 1)
    ensures Grown(root, m0, f0, r0, m1, f1, r1, 2)
  {
  }

  /** A table keeps its place while the tree grows. */
  lemma Kept(root: nat, m0: Mem, f0: set<nat>, r0: map<nat, Role>, m1: Mem, f1: set<nat>, r1: map<nat, Role>, p: nat)
    requires Grown(root, m0, f0, r0, m1, f1, r1, 1) && Tree(m1, root, r1) && p in r0
    ensures p in r1 && Linked(m1, root, p, r0[p])
  {
  }

  /** The mapping of virtual address `va`. */
  function Mapping(mem: Mem, root: nat, va: nat): Option<nat> {
    EntryAt(mem, root, Vpn2(va), Vpn1(va), Vpn0(va))
  }

  /** The table reads the same everywhere. */
  ghost predicate SameMap(mem: Mem, mem': Mem, root: nat) {
    forall va: nat :: Mapping(mem', root, va) == Mapping(mem, root, va)
  }

  /** The page of `va` now maps to `pte`, every other page as before. */
  ghost predicate MapsOnly(mem: Mem, mem': Mem, root: nat, va: nat, pte: Option<nat>) {
    forall vb: nat ::
      Mapping(mem', root, vb) == if PageNumber(vb) == PageNumber(va) then pte else Mapping(mem, root, vb)
  }

  lemma SameEntriesSameMap(mem: Mem, mem': Mem, root: nat)
    requires SameEntries(mem, mem', root)
    ensures SameMap(mem, mem', root)
  {
    hide EntryAt, Vpn0, Vpn1, Vpn2;
  }

  lemma PageAddress(i: nat)
    requires i < NUM_PAGES
    ensures AddrOf(i) % FLAGS == 0 && 0 < AddrOf(i) < FLAGS * ADDR_SPAN && Managed(AddrOf(i)) && PageOf(AddrOf(i)) == i
  {
    AddrRoundTrip(i, 0);
  }

  class Mmu {
    const pm: Allocator
    var mem: Mem

    constructor (pm: Allocator, mem: Mem)
      ensures this.pm == pm && this.mem == mem
    {
      this.pm, this.mem := pm, mem;
    }

    /** Every managed page is there, whatever it holds. */
    ghost predicate Valid()
      reads this, pm, pm.bitmap
    {
      pm.Valid() && forall i: nat :: i < NUM_PAGES ==> AddrOf(i) in mem && |mem[AddrOf(i)]| == ENTRIES
    }

    /** The tree below `root`, in allocated pages. */
    ghost predicate Owns(root: nat, role: map<nat, Role>)
      reads this, pm, pm.bitmap
    {
      && Tree(mem, root, role) && Pointers(mem, role)
      && forall p :: p in role ==> Managed(p) && p == AddrOf(PageOf(p)) && PageOf(p) !in pm.Free()
    }

    method ZeroPage(p: nat)
      requires p in mem && |mem[p]| == ENTRIES
      modifies `mem
      ensures mem == old(mem)[p := Zeros()]
    {
      for i := 0 to ENTRIES
        invariant p in mem && |mem[p]| == ENTRIES && mem == old(mem)[p := mem[p]]
        invariant forall k :: 0 <= k < i ==> mem[p][k] == 0
      {
        mem := Store(mem, p, i, 0);
      }
      assert mem[p] == Zeros();
    }

    /** create_page_table: a root with nothing mapped, or 0. */
    method CreatePageTable() returns (root: nat)
      requires Valid()
      modifies this`mem, pm`freePages, pm.bitmap
      ensures Valid()
      ensures root == 0 ==> mem == old(mem) && pm.Free() == old(pm.Free()) == {}
      ensures root != 0 ==>
        && Managed(root) && PageOf(root) in old(pm.Free()) && pm.Free() == old(pm.Free()) - {PageOf(root)}
        && mem == old(mem)[root := Zeros()]
        && Owns(root, map[root := Root]) && forall va: nat :: Mapping(mem, root, va) == None
    {
      root := pm.AllocPage();
      if root == 0 {
        return;
      }
      PageAddress(PageOf(root));
      ZeroPage(root);
      hide AddrOf, PageOf, Managed;
    }
  
    /** Allocate a page, link it below entry `k` of `t`, then zero it; 0 when memory is out. */
    method AllocBelow(root: nat, t: nat, k: nat, ghost role: map<nat, Role>)
      returns (below: nat, ghost role': map<nat, Role>)
      requires Valid() && Owns(root, role) && t in role && !role[t].Leaf? && k < ENTRIES && Next(mem, t, k).None?
      modifies this`mem, pm`freePages, pm.bitmap
      ensures Valid() && Owns(root, role')
      ensures below != 0 ==> Next(mem, t, k) == Some(below) && below in role' && role'[below] == Below(role[t], k)
      ensures below == 0 ==> mem == old(mem) && role' == role && pm.Free() == old(pm.Free()) == {}
      ensures Grown(root, old(mem), old(pm.Free()), role, mem, pm.Free(), role', 1)
    {
      hide AddrOf, PageOf, Managed, Tree, Grown, Link, Next, Pointers;
      role' := role;
      below := pm.AllocPage();
      if below == 0 {
        GrownNone(root, mem, pm.Free(), role, 1);
        return;
      }
      role' := role[below := Below(role[t], k)];
      LinkNew(root, t, k, role, below, old(pm.Free()));
      StoreLink(t, k, below);
    }

    /** The two writes of walk: the entry, then the zeroing loop. */
    method StoreLink(t: nat, k: nat, q: nat)
      requires t in mem && |mem[t]| == ENTRIES && k < ENTRIES && q in mem && |mem[q]| == ENTRIES && t != q
      requires Valid()
      modifies `mem
      ensures Valid() && mem == Link(old(mem), t, k, q)
    {
      hide AddrOf, MakePte;
      mem := Store(mem, t, k, MakePte(q, PTE_V));
      ZeroPage(q);
    }

    /** Linking the page the allocator just handed out. */
    lemma LinkNew(root: nat, t: nat, k: nat, role: map<nat, Role>, q: nat, free: set<nat>)
      requires Valid() && Tree(mem, root, role) && Pointers(mem, role)
      requires t in role && !role[t].Leaf? && k < ENTRIES && Next(mem, t, k).None?
      requires forall p :: p in role ==> Managed(p) && p == AddrOf(PageOf(p)) && PageOf(p) !in free
      requires Managed(q) && q == AddrOf(PageOf(q)) && PageOf(q) in free && pm.Free() == free - {PageOf(q)}
      requires PageOf(q) < NUM_PAGES
      ensures t in mem && |mem[t]| == ENTRIES && q in mem && |mem[q]| == ENTRIES
      ensures var mem', role' := Link(mem, t, k, q), role[q := Below(role[t], k)];
        && Tree(mem', root, role') && Pointers(mem', role') && Next(mem', t, k) == Some(q) && role'[q] == Below(role[t], k)
        && Grown(root, mem, free, role, mem', pm.Free(), role', 1)
        && (forall p :: p in role' ==> Managed(p) && p == AddrOf(PageOf(p)) && PageOf(p) !in pm.Free())
    {
      PageAddress(PageOf(q));
      assert TablePage(mem, t);
      hide AddrOf, PageOf, Managed, PteAddr;
      GrowTree(mem, root, role, t, k, q);
      PointersGrow(mem, role, t, k, q, Below(role[t], k));
      hide Pointers, Tree, SameEntries, Next;
      GrownOne(root, mem, free, role, Link(mem, t, k, q), pm.Free(), t, k, q, Below(role[t], k));
    }

    /** One level of walk: the table below entry `k` of `t`, allocated if asked for; 0 when there is none. */
    method Descend(root: nat, t: nat, k: nat, alloc: bool, ghost role: map<nat, Role>)
      returns (below: nat, ghost role': map<nat, Role>)
      requires Valid() && Owns(root, role) && t in role && !role[t].Leaf? && k < ENTRIES
      modifies this`mem, pm`freePages, pm.bitmap
      ensures Valid() && Owns(root, role')
      ensures below != 0 ==> Next(mem, t, k) == Some(below) && below in role' && role'[below] == Below(role[t], k)
      ensures below == 0 ==> Next(mem, t, k) == None && (alloc ==> pm.Free() == {})
      ensures Grown(root, old(mem), old(pm.Free()), role, mem, pm.Free(), role', 1)
      ensures !alloc ==> role' == role && mem == old(mem) && pm.Free() == old(pm.Free())
    {
      role' := role;
      assert TablePage(mem, t);
      GrownNone(root, mem, pm.Free(), role, 1);
      var pte := mem[t][k];
      if !Present(pte) {
        if !alloc {
          return 0, role;
        }
        below, role' := AllocBelow(root, t, k, role);
        return;
      }
      below := PteAddr(pte);
      assert Next(mem, t, k) == Some(below) && TablePage(mem, below);
    }

    /** walk: the location of the entry for `va`, or None. */
    method Walk(root: nat, va: nat, alloc: bool, ghost role: map<nat, Role>)
      returns (loc: Option<Loc>, ghost role': map<nat, Role>)
      requires Valid() && Owns(root, role)
      modifies this`mem, pm`freePages, pm.bitmap
      ensures Valid() && Owns(root, role')
      ensures loc.Some? ==> LeafTable(mem, root, Vpn2(va), Vpn1(va)) == Some(loc.value.table) && loc.value.idx == Vpn0(va)
      ensures loc.None? ==> LeafTable(mem, root, Vpn2(va), Vpn1(va)) == None
      ensures loc.None? && alloc ==> pm.Free() == {}
      ensures !alloc ==> mem == old(mem) && role' == role && pm.Free() == old(pm.Free())
      ensures Grown(root, old(mem), old(pm.Free()), role, mem, pm.Free(), role', 2)
    {
      ghost var i, j := Vpn2(va), Vpn1(va);
      ghost var m0, f0 := mem, pm.Free();
      var level1, level0;
      ghost var role1;
      level1, role1 := Descend(root, root, Vpn2(va), alloc, role);
      ghost var m1, f1 := mem, pm.Free();
      if level1 == 0 {
        GrownWider(root, m0, f0, role, m1, f1, role1);
        return None, role1;
      }
      level0, role' := Descend(root, level1, Vpn1(va), alloc, role1);
      assert Linked(mem, root, level1, Mid(i)) by { Kept(root, m1, f1, role1, mem, pm.Free(), role', level1); }
      GrownTwice(root, m0, f0, role, m1, f1, role1, mem, pm.Free(), role', 1, 1);
      if level0 == 0 {
        return None, role';
      }
      return Some(Loc(level0, Vpn0(va))), role';
    }
  
    /** map_page: 0 maps exactly the page of `va`; -1 leaves every mapping alone, and happens exactly when the
        page is mapped already or memory ran out on the way. */
    method MapPage(root: nat, va: nat, phys: nat, flags: nat, ghost role: map<nat, Role>)
      returns (r: int, ghost role': map<nat, Role>)
      requires Valid() && Owns(root, role) && flags < FLAGS
      modifies this`mem, pm`freePages, pm.bitmap
      ensures Valid() && Owns(root, role')
      ensures Wider(role, role', 2) && Took(old(pm.Free()), role, pm.Free(), role') && Untouched(old(mem), mem, role')
      ensures r == 0 || r == -1
      ensures r == 0 ==> Mapping(old(mem), root, va) == None
      ensures r == 0 ==> Mapping(mem, root, va).Some? && Grants(Mapping(mem, root, va).value, phys, flags)
      ensures r == 0 ==> MapsOnly(old(mem), mem, root, va, Mapping(mem, root, va))
      ensures r == -1 ==> SameMap(old(mem), mem, root)
      ensures r == -1 ==> Mapping(old(mem), root, va).Some? || pm.Free() == {}
    {
      hide PageNumber, SameEntries, Wider, Took, NewEntry, Tree, Pointers, AddrOf, Managed, PageOf, MapsOnly, Untouched, LeafTable, Grants, Present;
      NewEntryGrants(phys, flags);
      GrantsPresent(NewEntry(phys, flags), phys, flags);
      var loc;
      loc, role' := Walk(root, va, true, role);
      SameEntriesSameMap(old(mem), mem, root);
      MappingIs(mem, root, role', va, loc);
      assert Mapping(mem, root, va) == Mapping(old(mem), root, va);
      hide Mapping;
      if loc == None {
        return -1, role';
      }
      var t, k := loc.value.table, loc.value.idx;
      if Present(mem[t][k]) {
        return -1, role';
      }
      ghost var m1 := mem;
      WriteEntry(root, va, t, NewEntry(phys, flags), role');
      MapsAfter(old(mem), m1, mem, root, role', va, Some(NewEntry(phys, flags)));
      NowMaps(old(mem), mem, root, va, NewEntry(phys, flags));
      return 0, role';
    }

    /** `*pte = v` for the entry of `va` that walk found in table `t`. */
    method WriteEntry(root: nat, va: nat, t: nat, v: nat, ghost role: map<nat, Role>)
      requires Valid() && Owns(root, role) && LeafTable(mem, root, Vpn2(va), Vpn1(va)) == Some(t)
      modifies `mem
      ensures Valid() && Owns(root, role) && Untouched(old(mem), mem, role)
      ensures MapsOnly(old(mem), mem, root, va, if Present(v) then Some(v) else None)
    {
      SetMapping(mem, root, role, va, t, v);
      LeafIsLeaf(mem, root, role, Vpn2(va), Vpn1(va), t);
      PointersSetLeaf(mem, role, t, Vpn0(va), v);
      hide AddrOf, Tree, MapsOnly, Pointers;
      mem := Store(mem, t, Vpn0(va), v);
    }

    /** unmap_page: the page of `va` is unmapped, every other mapping stays, no page is allocated or freed. */
    method UnmapPage(root: nat, va: nat, ghost role: map<nat, Role>)
      requires Valid() && Owns(root, role)
      modifies this`mem, pm`freePages, pm.bitmap
      ensures Valid() && Owns(root, role) && pm.Free() == old(pm.Free()) && Untouched(old(mem), mem, role)
      ensures MapsOnly(old(mem), mem, root, va, None)
    {
      var loc;
      ghost var role';
      loc, role' := Walk(root, va, false, role);
      if loc != None {
        var t, k := loc.value.table, loc.value.idx;
        LeafIsLeaf(mem, root, role, Vpn2(va), Vpn1(va), t);
        if Present(mem[t][k]) {
          WriteEntry(root, va, t, 0, role);
          return;
        }
      }
      forall vb: nat | PageNumber(vb) == PageNumber(va) ensures Mapping(mem, root, vb) == None {
        IndicesNamePage(vb, va);
      }
    }

    /** walk_page_table: the mapped address with the page offset kept, or 0. */
    method WalkPageTable(root: nat, va: nat, ghost role: map<nat, Role>) returns (phys: nat)
      requires Valid() && Owns(root, role)
      modifies this`mem, pm`freePages, pm.bitmap
      ensures mem == old(mem) && pm.Free() == old(pm.Free())
      ensures phys == match Mapping(mem, root, va)
        case None => 0
        case Some(pte) => PteAddr(pte) + va % PAGE_SIZE
    {
      var loc;
      ghost var role';
      loc, role' := Walk(root, va, false, role);
      if loc == None {
        return 0;
      }
      LeafIsLeaf(mem, root, role, Vpn2(va), Vpn1(va), loc.value.table);
      var pte := mem[loc.value.table][loc.value.idx];
      if Present(pte) {
        return PteAddr(pte) + va % PAGE_SIZE;
      }
      return 0;
    }

    /** free_page_table gives back the root page alone. */
    method FreePageTable(root: nat)
      requires Valid()
      modifies pm`freePages, pm.bitmap
      ensures Valid() && pm.Free() == if root != 0 && Managed(root) then old(pm.Free()) + {PageOf(root)} else old(pm.Free())
    {
      if root != 0 {
        pm.FreePage(root);
      }
    }
  }

  /** The entry map_page writes. */
  function NewEntry(phys: nat, flags: nat): nat
    requires flags < FLAGS
  {
    assert WithValid(flags) < FLAGS;
    MakePte(phys, WithValid(flags))
  }

  /** A present entry for the page of `phys` with the permission bits of `flags`, and no other bit set. */
  predicate Grants(pte: nat, phys: nat, flags: nat) {
    && Present(pte) && pte % FLAGS / 2 == flags / 2 && pte < FLAGS * ADDR_SPAN
    && PteAddr(pte) == PteAddr(phys)
    && (phys % PAGE_SIZE == 0 && phys < FLAGS * ADDR_SPAN ==> PteAddr(pte) == phys)
  }

  lemma EntryFlags(addr: nat, flags: nat)
    requires addr % FLAGS == 0 && addr < FLAGS * ADDR_SPAN && flags < FLAGS
    ensures (addr + flags) % FLAGS == flags && addr + flags < FLAGS * ADDR_SPAN
  {
  }

  lemma AddressShape(phys: nat)
    ensures PteAddr(phys) % FLAGS == 0 && PteAddr(phys) < FLAGS * ADDR_SPAN
  {
  }

  lemma ValidFlags(flags: nat)
    ensures WithValid(flags) / 2 == flags / 2
  {
  }

  lemma NewEntryIs(phys: nat, flags: nat)
    requires flags < FLAGS
    ensures WithValid(flags) < FLAGS && NewEntry(phys, flags) == MakePte(phys, WithValid(flags)) == PteAddr(phys) + WithValid(flags)
  {
  }

  lemma NewEntryGrants(phys: nat, flags: nat)
    requires flags < FLAGS
    ensures Grants(NewEntry(phys, flags), phys, flags)
  {
    hide PteAddr, Present, WithValid, MakePte, NewEntry;
    NewEntryIs(phys, flags);
    EntryRoundTrip(phys, flags);
    AddressShape(phys);
    ValidFlags(flags);
    EntryFlags(PteAddr(phys), WithValid(flags));
    PageIsAligned(phys);
  }

  lemma PageIsAligned(phys: nat)
    ensures phys % PAGE_SIZE == 0 ==> phys % FLAGS == 0
  {
  }

  lemma GrantsPresent(pte: nat, phys: nat, flags: nat)
    requires Grants(pte, phys, flags)
    ensures Present(pte)
  {
  }

  lemma NowMaps(mem: Mem, mem': Mem, root: nat, va: nat, pte: nat)
    requires MapsOnly(mem, mem', root, va, Some(pte))
    ensures Mapping(mem', root, va) == Some(pte)
  {
  }

  lemma MappingIs(mem: Mem, root: nat, role: map<nat, Role>, va: nat, loc: Option<Loc>)
    requires Tree(mem, root, role)
    requires match loc
      case None => LeafTable(mem, root, Vpn2(va), Vpn1(va)) == None
      case Some(l) => LeafTable(mem, root, Vpn2(va), Vpn1(va)) == Some(l.table) && l.idx == Vpn0(va)
    ensures loc == None ==> Mapping(mem, root, va) == None
    ensures loc.Some? ==>
      && loc.value.table in mem && |mem[loc.value.table]| == ENTRIES && loc.value.idx < ENTRIES
      && var pte := mem[loc.value.table][loc.value.idx];
         Mapping(mem, root, va) == if Present(pte) then Some(pte) else None
  {
    if loc.Some? {
      LeafIsLeaf(mem, root, role, Vpn2(va), Vpn1(va), loc.value.table);
    }
  }

  lemma MapsAfter(m0: Mem, m1: Mem, m2: Mem, root: nat, role: map<nat, Role>, va: nat, pte: Option<nat>)
    requires SameMap(m0, m1, root) && MapsOnly(m1, m2, root, va, pte)
    requires Untouched(m0, m1, role) && Untouched(m1, m2, role)
    ensures MapsOnly(m0, m2, root, va, pte) && Untouched(m0, m2, role)
  {
    hide Mapping, PageNumber;
  }

  /** Writing the leaf entry of `va`. */
  lemma SetMapping(mem: Mem, root: nat, role: map<nat, Role>, va: nat, t: nat, v: nat)
    requires Tree(mem, root, role) && LeafTable(mem, root, Vpn2(va), Vpn1(va)) == Some(t)
    ensures t in role && t in mem && |mem[t]| == ENTRIES
    ensures Tree(Store(mem, t, Vpn0(va), v), root, role) && Untouched(mem, Store(mem, t, Vpn0(va), v), role)
    ensures MapsOnly(mem, Store(mem, t, Vpn0(va), v), root, va, if Present(v) then Some(v) else None)
  {
    SetLeaf(mem, root, role, Vpn2(va), Vpn1(va), t, Vpn0(va), v);
    hide Tree, EntryAt, Present;
    forall vb: nat ensures Mapping(Store(mem, t, Vpn0(va), v), root, vb) ==
      if PageNumber(vb) == PageNumber(va) then (if Present(v) then Some(v) else None) else Mapping(mem, root, vb)
    {
      IndicesNamePage(vb, va);
    }
  }

  /** A tree whose tables another tree does not share is not affected by that one's growth or changes. */
  lemma OtherTreesUnaffected(mem: Mem, mem': Mem, root: nat, role: map<nat, Role>, grown: map<nat, Role>)
    requires Tree(mem, root, role) && Untouched(mem, mem', grown) && forall p :: p in role ==> p !in grown
    ensures Tree(mem', root, role) && SameMap(mem, mem', root)
  {
    assert forall p :: p in role ==> TablePage(mem, p) && mem'[p] == mem[p];
    assert forall p, k: nat :: p in role ==> Next(mem', p, k) == Next(mem, p, k);
    hide PteAddr, Present;
    forall i: nat, j: nat | i < ENTRIES && j < ENTRIES
      ensures LeafTable(mem', root, i, j) == LeafTable(mem, root, i, j)
      ensures LeafTable(mem, root, i, j).Some? ==> LeafTable(mem, root, i, j).value in role
    {
      if Next(mem, root, i).Some? {
        MidIsMid(mem, root, role, i);
      }
    }
    forall p | p in role ensures TablePage(mem', p) && Linked(mem', root, p, role[p]) {
      assert TablePage(mem, p) && Linked(mem, root, p, role[p]);
    }
    hide Vpn0;
  }
}
