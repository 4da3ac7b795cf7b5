/** The process table in place, over the page allocator. */
module Processes {
  import opened Wrappers
  import opened ProcTable
  import opened ProcOwnership
  import PhysMem

  const NPROC: nat := 64

  lemma LowestUnique(i: nat, free: set<nat>)
    requires PhysMem.IsLowest(i, free)
    ensures free != {} && Lowest(free) == i
  {
  }

  class Table {
    const procs: array<Proc>
    var nextPid: nat
    var current: Option<nat>
    var frames: map<nat, seq<nat>>
    const alloc: PhysMem.Allocator

    constructor (alloc: PhysMem.Allocator)
      requires alloc.Valid()
      ensures this.alloc == alloc && fresh(procs) && procs.Length == NPROC && Sane()
      ensures nextPid == 1 && current == None && forall i :: 0 <= i < NPROC ==> procs[i].status == Unused && PagesOf(procs[i]) == {}
    {
      procs := new Proc[NPROC](_ => Proc(Unused, 0, None, 0, 0, None, None, None));
      nextPid, current, frames, this.alloc := 1, None, map[], alloc;
    }

    ghost function View(): State
      reads this, procs, alloc, alloc.bitmap
    {
      State(procs[..], nextPid, current, alloc.Free(), frames)
    }

    ghost predicate Sane()
      reads this, procs, alloc, alloc.bitmap
    {
      alloc.Valid() && (procs as object) != alloc.bitmap
    }

    /** physmem_alloc_page, by page number. */
    method TakePage() returns (p: Option<nat>)
      requires Sane()
      modifies alloc, alloc.bitmap
      ensures Sane() && procs[..] == old(procs[..])
      ensures if old(alloc.Free()) == {} then p == None && alloc.Free() == {}
        else p == Some(Lowest(old(alloc.Free()))) && alloc.Free() == old(alloc.Free()) - {Lowest(old(alloc.Free()))}
    {
      hide PhysMem.FreeSet, PhysMem.AddrOf, PhysMem.PageOf, Lowest;
      var addr := alloc.AllocPage();
      if addr == 0 {
        return None;
      }
      LowestUnique(PhysMem.PageOf(addr), old(alloc.Free()));
      return Some(PhysMem.PageOf(addr));
    }

    method GivePage(p: Option<nat>)
      requires Sane() && (p.Some? ==> p.value < PhysMem.NUM_PAGES)
      modifies alloc, alloc.bitmap
      ensures Sane() && procs[..] == old(procs[..]) && alloc.Free() == old(alloc.Free()) + PageSet(p)
    {
      hide PhysMem.FreeSet, PhysMem.AddrOf, PhysMem.PageOf, PhysMem.Managed;
      if p.Some? {
        PhysMem.AddrRoundTrip(p.value, 0);
        alloc.FreePage(PhysMem.AddrOf(p.value));
      }
    }

    method AllocProc() returns (i: int)
      requires Sane()
      modifies procs, `nextPid
      ensures Sane()
      ensures var u := FirstUnused(old(procs[..]));
        if u == procs.Length then i == -1 && View() == old(View()) else i == u && View() == Claimed(old(View()), u)
    {
      hide PhysMem.FreeSet, PhysMem.Allocator.Valid;
      for k := 0 to procs.Length
        invariant View() == old(View()) && forall j :: 0 <= j < k ==> procs[..][j].status != Unused
      {
        if procs[k].status == Unused {
          FirstUnusedIs(procs[..], k);
          procs[k] := Proc(Used, nextPid, None, 0, 0, None, None, None);
          nextPid := nextPid + 1;
          return k;
        }
      }
      FirstUnusedIs(procs[..], procs.Length);
      return -1;
    }

    /** free_proc. */
    method FreeProc(i: nat)
      requires Sane() && i < procs.Length && InMemory(procs[i])
      modifies procs, alloc, alloc.bitmap
      ensures Sane() && View() == ProcTable.FreeProc(old(View()), i)
    {
      hide PhysMem.FreeSet, PhysMem.Allocator.Valid, PagesOf, PageSet, InMemory;
      ghost var s := View();
      var p := procs[i];
      Parts(p, s.free);
      GivePage(p.table);
      GivePage(p.stack);
      GivePage(p.frame);
      procs[i] := p.(status := Unused, table := None, stack := None, frame := None);
    }

    /** Everything a page number in the table or the bitmap can be. */
    ghost predicate Bounded()
      reads this, procs, alloc, alloc.bitmap
    {
      InRange(View())
    }

    /** fork from the root table on. */
    method GiveTable(i: nat) returns (pid: int)
      requires Sane() && i < procs.Length && InMemory(procs[i])
      modifies procs, alloc, alloc.bitmap
      ensures Sane() && (View(), pid) == ProcTable.GiveTable(old(View()), i)
    {
      hide PhysMem.FreeSet, PhysMem.Allocator.Valid, PagesOf, PageSet, InMemory, Lowest, ProcTable.FreeProc;
      ghost var s := View();
      var page := TakePage();
      assert View() == s.(free := alloc.Free());
      if page.None? {
        FreeProc(i);
        return -1;
      }
      procs[i] := procs[i].(table := page);
      procs[i] := procs[i].(status := Runnable);
      assert procs[..] == s.procs[i := s.procs[i].(table := page, status := Runnable)];
      return procs[i].pid;
    }

    /** fork from the trapframe on. */
    method GiveFrame(c: nat, i: nat) returns (pid: int)
      requires Sane() && i < procs.Length && c < procs.Length && procs[i].table.None? && procs[i].frame.None? && InMemory(procs[i]) && Bounded()
      modifies this, procs, alloc, alloc.bitmap
      ensures Sane() && (View(), pid) == ProcTable.GiveFrame(old(View()), c, i)
    {
      hide PhysMem.FreeSet, PhysMem.Allocator.Valid, PagesOf, PageSet, InMemory, Lowest, ProcTable.FreeProc, ProcTable.GiveTable;
      ghost var s := View();
      if s.free != {} {
        LowestIn(s.free);
      }
      var page := TakePage();
      assert View() == s.(free := alloc.Free());
      if page.None? {
        FreeProc(i);
        return -1;
      }
      WithFrame(procs[i], page.value);
      var from := procs[c].frame;
      procs[i] := procs[i].(frame := page);
      if from.Some? && from.value in frames && |frames[from.value]| == NREGS {
        var regs: seq<nat> := frames[from.value];
        frames := frames[page.value := regs];
        frames := frames[page.value := regs[A0 := 0]];
      }
      assert frames == CopyFrame(s.frames, from, page.value);
      assert procs[..] == s.procs[i := s.procs[i].(frame := page)];
      pid := GiveTable(i);
    }

    /** fork once its slot is claimed: the kernel stack first. */
    method Populate(c: nat, i: nat) returns (pid: int)
      requires Sane() && i < procs.Length && c < procs.Length && c != i && ClaimedSlot(procs[i]) && Bounded()
      modifies this, procs, alloc, alloc.bitmap
      ensures Sane() && (View(), pid) == ProcTable.Populate(old(View()), c, i)
    {
      hide PhysMem.FreeSet, PhysMem.Allocator.Valid, PagesOf, PageSet, InMemory, Lowest, ProcTable.FreeProc, ProcTable.GiveFrame;
      ghost var s := View();
      if s.free != {} {
        LowestIn(s.free);
      }
      var page := TakePage();
      assert View() == s.(free := alloc.Free());
      if page.None? {
        FreeProc(i);
        return -1;
      }
      WithStack(procs[i], page.value);
      procs[i] := procs[i].(stack := page);
      assert procs[..] == s.procs[i := s.procs[i].(stack := page)];
      pid := GiveFrame(c, i);
    }

    method Fork() returns (pid: int)
      requires Sane() && Bounded() && Inv(View()) && (current.Some? ==> CurrentAlive(View()))
      modifies this, procs, alloc, alloc.bitmap
      ensures Sane() && (View(), pid) == ProcTable.Fork(old(View())) && Inv(View()) && Bounded()
    {
      hide PhysMem.FreeSet, PhysMem.Allocator.Valid, InMemory, Inv, ProcTable.Populate;
      ghost var s := View();
      if current.None? {
        return -1;
      }
      ForkKeeps(s);
      RangeKept(s, ProcTable.Fork(s).0);
      var i := AllocProc();
      if i < 0 {
        return -1;
      }
      var c := current.value;
      NoPages(procs[i]);
      assert c != i && procs[..] == Claimed(s, i).procs;
      procs[i] := procs[i].(parent := Some(c), sz := procs[c].sz);
      NoPages(procs[i]);
      assert procs[..] == SetProc(Claimed(s, i), i, procs[i]).procs;
      pid := Populate(c, i);
    }

    /** proc_init's loop. */
    method Reset()
      requires Sane() && forall i :: 0 <= i < procs.Length ==> PagesOf(procs[i]) == {}
      modifies procs
      ensures Sane() && forall i :: 0 <= i < procs.Length ==> procs[i].status == Unused && PagesOf(procs[i]) == {}
    {
      hide PhysMem.FreeSet, PhysMem.Allocator.Valid, PagesOf;
      for i := 0 to procs.Length
        invariant Sane()
        invariant forall j :: 0 <= j < procs.Length ==> PagesOf(procs[j]) == {} && (j < i ==> procs[j].status == Unused)
      {
        StatusPages(procs[i], Unused);
        procs[i] := procs[i].(status := Unused);
      }
    }

    /** The pages of the first process; false, keeping what was got, when one is missing. */
    method Equip(i: nat) returns (ok: bool, ghost k: nat, ghost f: nat, ghost t: nat)
      requires Sane() && i < procs.Length
      modifies procs, alloc, alloc.bitmap
      ensures Sane() && (ok <==> old(|alloc.Free()|) >= 3)
      ensures ok ==> {k, f, t} <= old(alloc.Free()) && k != f && k != t && f != t
      ensures ok ==> alloc.Free() == old(alloc.Free()) - {k, f, t}
      ensures ok ==> procs[..] == old(procs[..])[i :=
        old(procs[..])[i].(stack := Some(k), frame := Some(f), table := Some(t), status := Runnable)]
    {
      hide PhysMem.FreeSet, PhysMem.Allocator.Valid, PhysMem.IsLowest, Lowest;
      ghost var free, ps := alloc.Free(), procs[..];
      ok, k, f, t := false, 0, 0, 0;
      var p := TakePage();
      if p.None? {
        return;
      }
      k := p.value;
      LowestIn(free);
      OneLess(free, k);
      procs[i] := procs[i].(stack := p);
      ok, f, t := EquipFrame(i);
      assert free - {k} - {f, t} == free - {k, f, t};
    }

    method EquipFrame(i: nat) returns (ok: bool, ghost f: nat, ghost t: nat)
      requires Sane() && i < procs.Length
      modifies procs, alloc, alloc.bitmap
      ensures Sane() && (ok <==> old(|alloc.Free()|) >= 2)
      ensures ok ==> {f, t} <= old(alloc.Free()) && f != t && alloc.Free() == old(alloc.Free()) - {f, t}
      ensures ok ==> procs[..] == old(procs[..])[i := old(procs[..])[i].(frame := Some(f), table := Some(t), status := Runnable)]
    {
      hide PhysMem.FreeSet, PhysMem.Allocator.Valid, PhysMem.IsLowest, Lowest;
      ghost var free := alloc.Free();
      ok, f, t := false, 0, 0;
      var p := TakePage();
      if p.None? {
        return;
      }
      f := p.value;
      LowestIn(free);
      OneLess(free, f);
      procs[i] := procs[i].(frame := p);
      ok, t := EquipTable(i);
      assert free - {f} - {t} == free - {f, t};
    }

    method EquipTable(i: nat) returns (ok: bool, ghost t: nat)
      requires Sane() && i < procs.Length
      modifies procs, alloc, alloc.bitmap
      ensures Sane() && (ok <==> old(alloc.Free()) != {})
      ensures ok ==> t in old(alloc.Free()) && alloc.Free() == old(alloc.Free()) - {t}
      ensures ok ==> procs[..] == old(procs[..])[i := old(procs[..])[i].(table := Some(t), status := Runnable)]
    {
      hide PhysMem.FreeSet, PhysMem.Allocator.Valid, PhysMem.IsLowest, Lowest;
      ok, t := false, 0;
      var p := TakePage();
      if p.None? {
        return;
      }
      t := p.value;
      LowestIn(old(alloc.Free()));
      procs[i] := procs[i].(table := p);
      procs[i] := procs[i].(status := Runnable);
      ok := true;
    }

    /** proc_init on a table of unused slots. */
    method Init() returns (ok: bool)
      requires Sane() && procs.Length > 0 && nextPid == 1
      requires forall i :: 0 <= i < procs.Length ==> PagesOf(procs[i]) == {}
      modifies this, procs, alloc, alloc.bitmap
      ensures Sane() && (ok <==> old(|alloc.Free()|) >= 3)
      ensures ok ==> Inv(View()) && CurrentAlive(View()) && Owned(procs[..]) + alloc.Free() == old(alloc.Free())
    {
      hide PhysMem.FreeSet, PhysMem.Allocator.Valid, PagesOf, Lowest, Inv, Owned, FirstUnused;
      Reset();
      ok := First();
    }

    method First() returns (ok: bool)
      requires Sane() && procs.Length > 0 && nextPid == 1
      requires forall i :: 0 <= i < procs.Length ==> procs[i].status == Unused && PagesOf(procs[i]) == {}
      modifies this, procs, alloc, alloc.bitmap
      ensures Sane() && (ok <==> old(|alloc.Free()|) >= 3)
      ensures ok ==> Inv(View()) && CurrentAlive(View()) && Owned(procs[..]) + alloc.Free() == old(alloc.Free())
    {
      hide PhysMem.FreeSet, PhysMem.Allocator.Valid, PagesOf, Lowest, Owning, PidsOk, Owned, FirstUnused, Whole;
      ghost var ps, free := procs[..], alloc.Free();
      FirstUnusedIs(ps, 0);
      var i := AllocProc();
      ghost var k, f, t;
      ok, k, f, t := Equip(i);
      if ok {
        current := Some(i);
        ghost var q := Proc(Runnable, 1, None, 0, 0, Some(t), Some(k), Some(f));
        assert procs[..] == ps[0 := q];
        FirstProc(ps, procs[..], free, k, f, t);
      }
    }

    method Wakeup()
      modifies procs
      ensures procs[..] == Woken(old(procs[..]))
    {
      for i := 0 to procs.Length
        invariant forall j :: 0 <= j < procs.Length ==>
          procs[j] == if j < i && old(procs[j]).status == Sleeping then old(procs[j]).(status := Runnable) else old(procs[j])
      {
        if procs[i].status == Sleeping {
          procs[i] := procs[i].(status := Runnable);
        }
      }
    }

    /** exit up to its endless loop. */
    method Exit(code: int)
      requires Sane() && (current.Some? ==> current.value < procs.Length)
      modifies procs
      ensures Sane() && View() == ProcTable.Exit(old(View()), code)
    {
      hide PhysMem.FreeSet, PhysMem.Allocator.Valid;
      if current.None? {
        return;
      }
      var c := current.value;
      ghost var s := procs[..];
      procs[c] := procs[c].(exitCode := code);
      procs[c] := procs[c].(status := Zombie);
      assert procs[..] == s[c := s[c].(exitCode := code, status := Zombie)];
      if procs[c].parent.Some? {
        Wakeup();
      }
    }

    method Wait() returns (r: Waited)
      requires Sane() && Bounded() && Inv(View())
      modifies procs, alloc, alloc.bitmap
      ensures Sane() && (View(), r) == ProcTable.Wait(old(View())) && Inv(View()) && Bounded()
    {
      hide PhysMem.FreeSet, PhysMem.Allocator.Valid, InMemory, Inv, ProcTable.FreeProc;
      WaitKeeps(View());
      RangeKept(View(), ProcTable.Wait(View()).0);
      for i := 0 to procs.Length
        invariant Sane() && Bounded() && View() == old(View())
        invariant forall j :: 0 <= j < i ==> !Reapable(procs[..][j], current)
      {
        if procs[i].parent == current && procs[i].status == Zombie {
          FirstReapableIs(procs[..], current, i);
          var pid, code := procs[i].pid, procs[i].exitCode;
          FreeProc(i);
          return Waited(pid, code);
        }
      }
      FirstReapableIs(procs[..], current, procs.Length);
      return Waited(-1, 0);
    }
  }

  ghost predicate InRange(s: State) {
    (forall q :: q in s.free ==> q < PhysMem.NUM_PAGES) && forall i :: 0 <= i < |s.procs| ==> InMemory(s.procs[i])
  }

  /** What conserves the pages keeps them in range. */
  lemma RangeKept(s: State, t: State)
    requires InRange(s) && Kept(s, t)
    ensures InRange(t)
  {
    hide PagesOf, Inv;
    forall q | q in Owned(s.procs) + s.free ensures q < PhysMem.NUM_PAGES {
      if q in Owned(s.procs) {
        var i :| 0 <= i < |s.procs| && q in PagesOf(s.procs[i]);
        assert InMemory(s.procs[i]);
      }
    }
    forall q | q in t.free ensures q < PhysMem.NUM_PAGES {
      assert q in Owned(t.procs) + t.free;
    }
    forall i | 0 <= i < |t.procs| ensures InMemory(t.procs[i]) {
      forall q | q in PagesOf(t.procs[i]) ensures q < PhysMem.NUM_PAGES {
        assert q in Owned(t.procs) + t.free;
      }
    }
  }

  predicate InMemory(p: Proc) { forall q :: q in PagesOf(p) ==> q < PhysMem.NUM_PAGES }

  lemma Parts(p: Proc, free: set<nat>)
    requires InMemory(p)
    ensures p.table.Some? ==> p.table.value < PhysMem.NUM_PAGES
    ensures p.stack.Some? ==> p.stack.value < PhysMem.NUM_PAGES
    ensures p.frame.Some? ==> p.frame.value < PhysMem.NUM_PAGES
    ensures free + PageSet(p.table) + PageSet(p.stack) + PageSet(p.frame) == free + PagesOf(p)
  {
    assert forall q :: q in PageSet(p.table) ==> q in PagesOf(p);
    assert forall q :: q in PageSet(p.stack) ==> q in PagesOf(p);
    assert forall q :: q in PageSet(p.frame) ==> q in PagesOf(p);
  }

  lemma FirstUnusedIs(ps: seq<Proc>, i: nat)
    requires i <= |ps| && (forall j :: 0 <= j < i ==> ps[j].status != Unused) && (i < |ps| ==> ps[i].status == Unused)
    ensures FirstUnused(ps) == i
  {
  }

  lemma StatusPages(p: Proc, status: Status)
    ensures PagesOf(p.(status := status)) == PagesOf(p)
  {
  }

  lemma FirstProc(ps: seq<Proc>, qs: seq<Proc>, free: set<nat>, k: nat, f: nat, t: nat)
    requires |ps| > 0 && (forall i :: 0 <= i < |ps| ==> PagesOf(ps[i]) == {} && (i > 0 ==> ps[i].status == Unused))
    requires {k, f, t} <= free && k != f && k != t && f != t
    requires |qs| == |ps| && qs == ps[0 := qs[0]] && qs[0].pid == 1 && qs[0].status == Runnable
    requires qs[0].stack == Some(k) && qs[0].frame == Some(f) && qs[0].table == Some(t)
    ensures Owning(qs, free - {k, f, t}) && PidsOk(qs, 2) && Owned(qs) + (free - {k, f, t}) == free
  {
    hide PagesOf, Owned;
    ChildPages(qs[0], k, f, t);
    assert forall i :: 0 < i < |qs| ==> qs[i] == ps[i];
    OnlyFirst(qs, {k, f, t});
  }

  lemma OnlyFirst(qs: seq<Proc>, pages: set<nat>)
    requires |qs| > 0 && PagesOf(qs[0]) == pages && forall i :: 0 < i < |qs| ==> PagesOf(qs[i]) == {}
    ensures Owned(qs) == pages
  {
    hide PagesOf;
    forall q | q in pages ensures q in Owned(qs) {
      assert q in PagesOf(qs[0]);
    }
  }

  lemma WithFrame(p: Proc, q: nat)
    requires InMemory(p) && q < PhysMem.NUM_PAGES
    ensures InMemory(p.(frame := Some(q)))
  {
    var r := p.(frame := Some(q));
    forall x | x in PagesOf(r) ensures x < PhysMem.NUM_PAGES {
      assert x != q ==> x in PagesOf(p);
    }
  }

  lemma WithStack(p: Proc, q: nat)
    requires p.table.None? && p.frame.None? && q < PhysMem.NUM_PAGES
    ensures InMemory(p.(stack := Some(q)))
  {
  }

  lemma NoPages(p: Proc)
    requires ClaimedSlot(p)
    ensures InMemory(p)
  {
  }

  lemma FirstReapableIs(ps: seq<Proc>, c: Option<nat>, i: nat)
    requires i <= |ps| && (forall j :: 0 <= j < i ==> !Reapable(ps[j], c)) && (i < |ps| ==> Reapable(ps[i], c))
    ensures FirstReapable(ps, c) == i
  {
  }
}
