/** kernel/fs/inode.c: the table of in-memory inodes, and allocating and freeing inodes on disk. */
module InodeCache {
  import opened Wrappers
  import opened Params
  import opened Bytes
  import opened Storage
  import opened DiskInode
  import opened InodeModel
  import opened InodeFile

  datatype Entry = Entry(dev: nat, inum: nat, ref: nat, valid: bool)

  predicate Hit(e: Entry, dev: nat, inum: nat) { e.ref > 0 && e.dev == dev && e.inum == inum }

  function FirstHit(es: seq<Entry>, dev: nat, inum: nat): (i: nat)
    ensures i <= |es|
    ensures i < |es| ==> Hit(es[i], dev, inum)
    ensures forall j :: 0 <= j < i ==> !Hit(es[j], dev, inum)
  {
    if es == [] then 0 else if Hit(es[0], dev, inum) then 0 else 1 + FirstHit(es[1..], dev, inum)
  }

  function FirstEmpty(es: seq<Entry>): (i: nat)
    ensures i <= |es|
    ensures i < |es| ==> es[i].ref == 0
    ensures forall j :: 0 <= j < i ==> es[j].ref != 0
  {
    if es == [] then 0 else if es[0].ref == 0 then 0 else 1 + FirstEmpty(es[1..])
  }

  function WithRef(e: Entry, ref: nat): Entry { e.(ref := ref) }

  /** inode_get. */
  function Lookup(es: seq<Entry>, dev: nat, inum: nat): (r: (seq<Entry>, Option<nat>)) {
    var i := FirstHit(es, dev, inum);
    if i < |es| then (es[i := WithRef(es[i], es[i].ref + 1)], Some(i))
    else
      var k := FirstEmpty(es);
      if k == |es| then (es, None) else (es[k := Entry(dev, inum, 1, false)], Some(k))
  }

  /** The entries and, as history, the references handed out and not given back. */
  datatype State = State(es: seq<Entry>, held: multiset<nat>)
  datatype Step = DoGet(dev: nat, inum: nat) | DoDup(i: nat) | DoPut(i: nat)

  /** Only a holder of a reference duplicates it or gives it back. */
  function Do(s: State, step: Step): State {
    match step
    case DoGet(dev, inum) =>
      var r := Lookup(s.es, dev, inum);
      State(r.0, if r.1.Some? then s.held + multiset{r.1.value} else s.held)
    case DoDup(i) =>
      if i in s.held && i < |s.es| then State(s.es[i := WithRef(s.es[i], s.es[i].ref + 1)], s.held + multiset{i}) else s
    case DoPut(i) =>
      if i in s.held && i < |s.es| && s.es[i].ref > 0
      then State(s.es[i := WithRef(s.es[i], s.es[i].ref - 1)], s.held - multiset{i}) else s
  }

  ghost predicate OneEntry(es: seq<Entry>) {
    forall i, j :: 0 <= i < j < |es| && es[i].ref > 0 ==> !Hit(es[j], es[i].dev, es[i].inum)
  }

  ghost predicate Counted(es: seq<Entry>, held: multiset<nat>) {
    (forall i: nat :: i in held ==> i < |es|) && forall i :: 0 <= i < |es| ==> es[i].ref == held[i]
  }

  /** At most one entry stands for an inode, and its count is the number of its references. */
  ghost predicate Inv(s: State) { OneEntry(s.es) && Counted(s.es, s.held) }

  lemma SameKeyKeeps(es: seq<Entry>, i: nat, ref: nat)
    requires OneEntry(es) && i < |es| && es[i].ref > 0
    ensures OneEntry(es[i := WithRef(es[i], ref)])
  {
  }

  lemma NewKeyKeeps(es: seq<Entry>, i: nat, e: Entry)
    requires OneEntry(es) && i < |es| && forall j :: 0 <= j < |es| ==> !Hit(es[j], e.dev, e.inum)
    ensures OneEntry(es[i := e])
  {
  }

  lemma GetKeeps(s: State, dev: nat, inum: nat)
    requires Inv(s)
    ensures Inv(Do(s, DoGet(dev, inum)))
  {
    var i, k := FirstHit(s.es, dev, inum), FirstEmpty(s.es);
    hide OneEntry;
    if i < |s.es| {
      SameKeyKeeps(s.es, i, s.es[i].ref + 1);
    } else if k < |s.es| {
      NewKeyKeeps(s.es, k, Entry(dev, inum, 1, false));
    }
  }

  lemma CountKeeps(s: State, step: Step)
    requires Inv(s) && !step.DoGet?
    ensures Inv(Do(s, step))
  {
    hide OneEntry;
    if step.i in s.held {
      SameKeyKeeps(s.es, step.i, s.es[step.i].ref + 1);
      if s.es[step.i].ref > 0 {
        SameKeyKeeps(s.es, step.i, s.es[step.i].ref - 1);
      }
    }
  }

  lemma KeyStays(s: State, step: Step, i: nat)
    requires Counted(s.es, s.held) && i < |s.es| && i in s.held
    ensures |Do(s, step).es| == |s.es|
    ensures Do(s, step).es[i].dev == s.es[i].dev && Do(s, step).es[i].inum == s.es[i].inum
  {
    if step.DoGet? {
      var k, e := FirstHit(s.es, step.dev, step.inum), FirstEmpty(s.es);
      assert s.es[i].ref != 0;
      hide Counted, FirstHit, FirstEmpty, Hit;
    }
  }

  lemma SameSize(s: State, step: Step)
    ensures |Do(s, step).es| == |s.es|
  {
  }

  lemma StepKeeps(s: State, step: Step)
    requires Inv(s)
    ensures Inv(Do(s, step)) && |Do(s, step).es| == |s.es|
    ensures forall i :: 0 <= i < |s.es| && i in s.held ==>
      Do(s, step).es[i].dev == s.es[i].dev && Do(s, step).es[i].inum == s.es[i].inum
  {
    hide Do, OneEntry, Counted;
    SameSize(s, step);
    if step.DoGet? {
      GetKeeps(s, step.dev, step.inum);
    } else {
      CountKeeps(s, step);
    }
    forall i | 0 <= i < |s.es| && i in s.held
      ensures Do(s, step).es[i].dev == s.es[i].dev && Do(s, step).es[i].inum == s.es[i].inum
    {
      KeyStays(s, step, i);
    }
  }

  /** inode_get hands out the one entry of the inode, or claims the first unused one; it fails, changing nothing,
      exactly when the inode has no entry and every entry is in use. An entry newly claimed is not valid, so that
      inode_lock loads it; one that is shared keeps what it holds. */
  lemma GetOutcome(s: State, dev: nat, inum: nat)
    requires Inv(s)
    ensures var r := Lookup(s.es, dev, inum);
      && (r.1 == None <==> (forall i :: 0 <= i < |s.es| ==> s.es[i].ref > 0 && !Hit(s.es[i], dev, inum)))
      && (r.1 == None ==> r.0 == s.es)
      && (r.1.Some? ==>
            && r.1.value < |s.es| && Hit(r.0[r.1.value], dev, inum)
            && (forall i :: 0 <= i < |s.es| && i != r.1.value ==> r.0[i] == s.es[i] && !Hit(s.es[i], dev, inum))
            && (s.es[r.1.value].ref == 0 ==> r.0[r.1.value].ref == 1 && !r.0[r.1.value].valid)
            && (s.es[r.1.value].ref > 0 ==> r.0[r.1.value] == s.es[r.1.value].(ref := s.es[r.1.value].ref + 1)))
  {
    var i, k := FirstHit(s.es, dev, inum), FirstEmpty(s.es);
  }

  function Run(s: State, steps: seq<Step>): State
    decreases |steps|
  {
    if steps == [] then s else Run(Do(s, steps[0]), steps[1..])
  }

  /** Some reference to entry `i` is held all along the run. */
  ghost predicate HeldAlong(s: State, steps: seq<Step>, i: nat)
    decreases |steps|
  {
    i in s.held && (steps == [] || HeldAlong(Do(s, steps[0]), steps[1..], i))
  }

  /** While a reference is held its entry stands for the same inode, whatever the other holders do. */
  lemma {:induction false} IdentityStable(s: State, steps: seq<Step>, i: nat)
    requires Inv(s) && HeldAlong(s, steps, i)
    ensures Inv(Run(s, steps)) && i < |s.es| && i < |Run(s, steps).es|
    ensures Hit(Run(s, steps).es[i], s.es[i].dev, s.es[i].inum)
    decreases |steps|
  {
    if steps != [] {
      StepKeeps(s, steps[0]);
      hide Do, Hit;
      IdentityStable(Do(s, steps[0]), steps[1..], i);
    }
  }

  // ---- inodes on disk -----------------------------------------------------

  predicate TableFits(st: Disk, start: nat, n: nat) { forall j: nat :: j < n ==> BlockOf(start, j) < |st| }

  predicate IsFree(st: Disk, start: nat, j: nat)
    requires BlockOf(start, j) < |st|
  {
    Load(st, start, j).kind == 0
  }

  /** inode_alloc's scan from inode `j` on; it gives up at a block it cannot read. */
  function Scan(st: Disk, bad: set<nat>, start: nat, n: nat, j: nat): (r: Option<nat>)
    requires TableFits(st, start, n)
    decreases n - j
  {
    if j >= n || BlockOf(start, j) in bad then None
    else if IsFree(st, start, j) then Some(j)
    else Scan(st, bad, start, n, j + 1)
  }

  function Blank(kind: nat): Dinode { Dinode(kind, 0, 0, 0, 0, seq(NADDR, _ => 0)) }

  lemma {:induction false} ScanFinds(st: Disk, bad: set<nat>, start: nat, n: nat, j: nat)
    requires TableFits(st, start, n)
    ensures var r := Scan(st, bad, start, n, j);
      && (r.Some? ==> j <= r.value < n && IsFree(st, start, r.value) && BlockOf(start, r.value) !in bad
                      && forall i :: j <= i < r.value ==> !IsFree(st, start, i) && BlockOf(start, i) !in bad)
      && (r.None? ==> forall i :: j <= i < n && IsFree(st, start, i) ==> exists k :: j <= k <= i && BlockOf(start, k) in bad)
    decreases n - j
  {
    hide IsFree, BlockOf;
    if j < n && BlockOf(start, j) !in bad && !IsFree(st, start, j) {
      ScanFinds(st, bad, start, n, j + 1);
    }
  }

  /** inode_alloc's choice: the lowest free inode from 1 on, which becomes a blank inode of the type asked for;
      every other inode stays as it is. */
  lemma AllocOutcome(st: Disk, bad: set<nat>, start: nat, n: nat, kind: nat)
    requires TableFits(st, start, n) && kind < 0x1_0000 && Scan(st, bad, start, n, 1).Some?
    ensures var i := Scan(st, bad, start, n, 1).value;
      && 1 <= i < n && IsFree(st, start, i) && (forall j :: 1 <= j < i ==> !IsFree(st, start, j))
      && var st2 := Save(st, start, i, Blank(kind));
        && Load(st2, start, i) == Blank(kind)
        && forall j: nat :: j != i && BlockOf(start, j) < |st| ==> Load(st2, start, j) == Load(st, start, j)
  {
    ScanFinds(st, bad, start, n, 1);
    SaveLoad(st, start, Scan(st, bad, start, n, 1).value, Blank(kind));
  }

  /** inode_put of the last reference to an unlinked inode. */
  function Freed(st: Disk, bad: set<nat>, start: nat, ip: Inode): Disk
    requires BlockOf(start, ip.inum) < |st| && |ip.d.addrs| == NADDR
  {
    Update(st, bad, start, ip.(d := ip.d.(kind := 0)))
  }

  /** Freeing an inode just allocated makes exactly the inodes free again that were free before. */
  lemma AllocThenFree(st: Disk, start: nat, n: nat, kind: nat, ip: Inode, j: nat)
    requires TableFits(st, start, n) && kind < 0x1_0000 && Scan(st, {}, start, n, 1) == Some(ip.inum) && Fits(ip.d)
    requires BlockOf(start, j) < |st|
    ensures ip.inum < n && IsFree(Freed(Save(st, start, ip.inum, Blank(kind)), {}, start, ip), start, j) == IsFree(st, start, j)
  {
    AllocOutcome(st, {}, start, n, kind);
    SaveLoad(Save(st, start, ip.inum, Blank(kind)), start, ip.inum, ip.d.(kind := 0));
  }

  lemma {:induction false} ZeroBytes(k: nat)
    ensures ToLe(0, k) == seq(k, _ => 0)
  {
    if k > 0 {
      ZeroBytes(k - 1);
    }
  }

  lemma {:induction false} ZeroWords(ws: seq<nat>)
    requires forall i :: 0 <= i < |ws| ==> ws[i] == 0
    ensures Words(ws) == seq(4 * |ws|, _ => 0)
  {
    if ws != [] {
      ZeroWords(ws[..|ws| - 1]);
      ZeroBytes(4);
    }
  }

  /** Clearing the 64 bytes and storing the type writes a blank inode. */
  lemma BlankBytes(kind: nat)
    ensures Encode(Blank(kind)) == ToLe(kind, 2) + seq(62, _ => 0)
  {
    ZeroBytes(2);
    ZeroBytes(4);
    ZeroWords(Blank(kind).addrs);
    hide ToLe, Words;
  }

  lemma FirstHitIs(es: seq<Entry>, dev: nat, inum: nat, i: nat)
    requires i <= |es| && (forall j :: 0 <= j < i ==> !Hit(es[j], dev, inum)) && (i < |es| ==> Hit(es[i], dev, inum))
    ensures FirstHit(es, dev, inum) == i
  {
  }

  lemma FirstEmptyIs(es: seq<Entry>, i: nat)
    requires i <= |es| && (forall j :: 0 <= j < i ==> es[j].ref != 0) && (i < |es| ==> es[i].ref == 0)
    ensures FirstEmpty(es) == i
  {
  }

  class Table {
    const entries: array<Entry>

    constructor (n: nat)
      ensures entries.Length == n && fresh(entries) && Inv(State(entries[..], multiset{}))
    {
      entries := new Entry[n](_ => Entry(0, 0, 0, false));
    }

    /** inode_get; -1 when the table is full. */
    method Get(dev: nat, inum: nat) returns (slot: int)
      modifies entries
      ensures var r := Lookup(old(entries[..]), dev, inum);
        entries[..] == r.0 && slot == if r.1.Some? then r.1.value else -1
    {
      var empty := -1;
      for i := 0 to entries.Length
        invariant entries[..] == old(entries[..]) && -1 <= empty < i
        invariant forall j :: 0 <= j < i ==> !Hit(entries[..][j], dev, inum)
        invariant if empty < 0 then forall j :: 0 <= j < i ==> entries[..][j].ref != 0
          else entries[empty].ref == 0 && forall j :: 0 <= j < empty ==> entries[..][j].ref != 0
      {
        if entries[i].ref > 0 && entries[i].dev == dev && entries[i].inum == inum {
          FirstHitIs(entries[..], dev, inum, i);
          entries[i] := entries[i].(ref := entries[i].ref + 1);
          return i;
        }
        if empty == -1 && entries[i].ref == 0 {
          empty := i;
        }
      }
      FirstHitIs(entries[..], dev, inum, entries.Length);
      FirstEmptyIs(entries[..], if empty < 0 then entries.Length else empty);
      if empty >= 0 {
        entries[empty] := Entry(dev, inum, 1, false);
      }
      return empty;
    }

    /** inode_put of a reference; `ip` holds the fields of the entry. */
    method Put(store: BlockStore, start: nat, i: nat, ip: CachedInode)
      requires i < entries.Length && entries[i].ref > 0 && ip.addrs.Length == NADDR && BlockOf(start, ip.inum) < |store.blocks|
      requires (entries as object) != ip.addrs && ip.valid == entries[i].valid
      modifies entries, ip, store`blocks
      ensures var last := old(entries[i].ref == 1 && ip.valid && ip.nlink == 0);
        && store.blocks == (if last then Freed(old(store.blocks), store.bad, start, old(ip.View())) else old(store.blocks))
        && entries[..] == old(entries[..])[i := Entry(old(entries[i].dev), old(entries[i].inum), old(entries[i].ref) - 1, old(ip.valid) && !last)]
        && ip.valid == (old(ip.valid) && !last)
    {
      if entries[i].ref == 1 && ip.valid && ip.nlink == 0 {
        ip.kind := 0;
        ip.Update(store, start);
        ip.valid := false;
      }
      entries[i] := entries[i].(ref := entries[i].ref - 1, valid := ip.valid);
    }

    /** inode_alloc. When the table of in-memory inodes is full it fails after the inode on disk was taken. */
    method Alloc(store: BlockStore, start: nat, n: nat, dev: nat, kind: nat) returns (slot: int)
      requires TableFits(store.blocks, start, n) && kind < 0x1_0000
      modifies entries, store`blocks
      ensures var found := Scan(old(store.blocks), store.bad, start, n, 1);
        if found.None? then slot == -1 && store.blocks == old(store.blocks) && entries[..] == old(entries[..])
        else
          var r := Lookup(old(entries[..]), dev, found.value);
          && found.value < n
          && store.blocks == Save(old(store.blocks), start, found.value, Blank(kind))
          && entries[..] == r.0 && slot == if r.1.Some? then r.1.value else -1
    {
      hide ToLe, Encode, Decode, Save, PlaceOf, Lookup;
      ghost var st := store.blocks;
      ScanFinds(st, store.bad, start, n, 1);
      var inum := 1;
      while inum < n
        invariant 1 <= inum && store.blocks == st && entries[..] == old(entries[..])
        invariant Scan(st, store.bad, start, n, 1) == Scan(st, store.bad, start, n, inum)
      {
        var bp := store.BlockRead(BlockOf(start, inum));
        if bp == null {
          return -1;
        }
        PlaceFits(inum);
        var at := PlaceOf(inum);
        if Decode(bp[at..at + DSIZE]).kind == 0 {
          MakeBlank(bp, at, kind);
          store.LogWrite(BlockOf(start, inum), bp);
          SaveIs(st, start, inum, kind);
          slot := Get(dev, inum);
          return;
        }
        inum := inum + 1;
      }
      return -1;
    }
  }

  lemma SaveIs(st: Disk, start: nat, inum: nat, kind: nat)
    requires BlockOf(start, inum) < |st|
    ensures PlaceOf(inum) + DSIZE <= BSIZE && |Encode(Blank(kind))| == DSIZE
    ensures Save(st, start, inum, Blank(kind))
      == st[BlockOf(start, inum) := Patch(st[BlockOf(start, inum)], PlaceOf(inum), Encode(Blank(kind)))]
  {
  }

  /** The 64 bytes cleared, then the type stored. */
  method MakeBlank(bp: array<Byte>, at: nat, kind: nat)
    requires at + DSIZE <= bp.Length && kind < 0x1_0000
    modifies bp
    ensures bp[..] == Patch(old(bp[..]), at, Encode(Blank(kind)))
  {
    BlankBytes(kind);
    hide ToLe, Encode;
    for i := 0 to DSIZE
      invariant bp[..] == Patch(old(bp[..]), at, seq(i, _ => 0))
    {
      bp[at + i] := 0;
    }
    CopyInto(bp, at, ToLe(kind, 2));
  }
}
