/** The file table and the pipes in place, over the page allocator. */
module OpenFiles {
  import opened FileTable
  import opened FileLifetimes
  import PhysMem

  lemma FirstIs(fs: seq<File>, i: nat)
    requires i <= |fs| && (forall j :: 0 <= j < i ==> fs[j].ref != 0) && (i < |fs| ==> fs[i].ref == 0)
    ensures FirstUnused(fs) == i
  {
  }

  /** file_alloc turned `fs` into `gs` and returned entry `i`, or -1. */
  predicate Got(fs: seq<File>, i: int, gs: seq<File>) {
    var u := FirstUnused(fs);
    if u == |fs| then i == -1 && gs == fs else i == u && gs == fs[u := WithRef(fs[u], 1)]
  }

  lemma BothGot(s: State, p: nat, f0: int, fs1: seq<File>, f1: int, fs2: seq<File>)
    requires p in s.free && Got(s.files, f0, fs1) && Got(fs1, f1, fs2) && f0 >= 0 && f1 >= 0
    ensures f0 < |fs2| && f1 < |fs2| && |fs2| == |s.files| && f0 != f1 && fs2[f0].ref == 1 && fs2[f1].ref == 1
    ensures var k := |s.pipes|;
      PipeAlloc(s, p) == (State(fs2[f0 := EndFile(fs2[f0], k, false)][f1 := EndFile(fs2[f1], k, true)],
                                s.pipes + [Pipe(p, true, true, 0)], s.free - {p}), true)
  {
    var k := |s.pipes|;
    assert fs1[f0 := EndFile(fs1[f0], k, false)][f1 := EndFile(fs1[f1], k, true)]
        == fs2[f0 := EndFile(fs2[f0], k, false)][f1 := EndFile(fs2[f1], k, true)];
  }

  lemma OneGot(s: State, p: nat, f0: int, fs1: seq<File>, f1: int, fs2: seq<File>)
    requires p in s.free && FilesOk(s.files) && Got(s.files, f0, fs1)
    requires if f0 >= 0 then Got(fs1, f1, fs2) && f1 < 0 else fs2 == fs1
    ensures !PipeAlloc(s, p).1
    ensures f0 >= 0 ==> f0 < |s.files| && s.files[f0].ref == 0 && s.files[f0].kind == NoFile && fs2 == s.files[f0 := WithRef(s.files[f0], 1)]
    ensures f0 < 0 ==> fs2 == s.files
  {
  }

  class Table {
    const files: array<File>
    var pipes: seq<Pipe>
    const alloc: PhysMem.Allocator

    /** file_init over the zeroed table. */
    constructor (n: nat, alloc: PhysMem.Allocator)
      requires alloc.Valid()
      ensures Valid() && this.alloc == alloc && fresh(files) && Fresh(View()) && |View().files| == n
    {
      files := new File[n](_ => File(NoFile, 0, false, false, 0));
      pipes, this.alloc := [], alloc;
      new;
      assert forall i :: 0 <= i < n ==> files[i].ref == 0;
    }

    ghost function View(): State
      reads this, files, alloc, alloc.bitmap
    {
      State(files[..], pipes, alloc.Free())
    }

    ghost predicate Valid()
      reads this, files, alloc, alloc.bitmap
    {
      alloc.Valid() && (files as object) != alloc.bitmap && Inv(View()) && forall k :: 0 <= k < |pipes| ==> pipes[k].page < PhysMem.NUM_PAGES
    }

    method FileAlloc() returns (i: int)
      modifies files
      ensures Got(old(files[..]), i, files[..])
    {
      for k := 0 to files.Length
        invariant files[..] == old(files[..]) && forall j :: 0 <= j < k ==> files[..][j].ref != 0
      {
        if files[k].ref == 0 {
          FirstIs(files[..], k);
          files[k] := files[k].(ref := 1);
          return k;
        }
      }
      FirstIs(files[..], files.Length);
      return -1;
    }

    method FileDup(i: nat) returns (ok: bool)
      requires Valid() && i < files.Length
      modifies files
      ensures Valid() && View() == Dup(old(View()), i) && (ok <==> old(files[i].ref) >= 1)
    {
      hide FilesOk, PipeOk, PagesOk, Inv;
      ghost var s := View();
      DupKeeps(s, i);
      if files[i].ref < 1 {
        return false;
      }
      files[i] := files[i].(ref := files[i].ref + 1);
      assert files[..] == Dup(s, i).files;
      assert alloc.Free() == s.free;
      ok := true;
    }

    /** pipe_close. */
    method ClosePipe(k: nat, writable: bool)
      requires alloc.Valid() && (files as object) != alloc.bitmap && k < |pipes| && pipes[k].page < PhysMem.NUM_PAGES
      modifies `pipes, alloc, alloc.bitmap
      ensures alloc.Valid() && View() == PipeClose(old(View()), k, writable)
    {
      hide PhysMem.FreeSet, PhysMem.AddrOf, PhysMem.PageOf, PhysMem.Managed, PhysMem.Allocator.Valid;
      ghost var was, free := pipes, alloc.Free();
      var q := if writable then pipes[k].(writeopen := false) else pipes[k].(readopen := false);
      pipes := pipes[k := q];
      if !q.readopen && !q.writeopen {
        PhysMem.AddrRoundTrip(q.page, 0);
        alloc.FreePage(PhysMem.AddrOf(q.page));
        pipes := pipes[k := q.(freed := q.freed + 1)];
        assert alloc.Free() == free + {q.page};
        assert pipes == was[k := q.(freed := q.freed + 1)];
      }
    }

    /** file_close. */
    method FileClose(i: nat)
      requires Valid() && i < files.Length
      modifies `pipes, files, alloc, alloc.bitmap
      ensures Valid() && View() == Close(old(View()), i)
    {
      hide FilesOk, PipeOk, PagesOk, Inv, PhysMem.FreeSet, PhysMem.Allocator.Valid;
      ghost var s := View();
      CloseKeeps(s, i);
      PagesInRange(s, i);
      if files[i].ref < 1 {
        return;
      }
      if files[i].ref - 1 > 0 {
        files[i] := files[i].(ref := files[i].ref - 1);
        return;
      }
      var ff := files[i];
      files[i] := files[i].(ref := 0, kind := NoFile);
      assert View() == s.(files := s.files[i := ff.(ref := 0, kind := NoFile)]);
      if ff.kind == PipeEnd {
        ClosePipe(ff.pipe, ff.writable);
      }
    }

    /** pipe_alloc; on failure the page bitmap and the table are exactly as before. */
    method AllocPipe() returns (f0: int, f1: int)
      requires Valid()
      modifies `pipes, files, alloc, alloc.bitmap
      ensures Valid()
      ensures f0 < 0 || f1 < 0 ==> View() == old(View())
      ensures f0 >= 0 && f1 >= 0 ==>
        |pipes| == |old(pipes)| + 1 && pipes[|old(pipes)|].page in old(alloc.Free())
        && PipeAlloc(old(View()), pipes[|old(pipes)|].page) == (View(), true)
        && f0 < files.Length && f1 < files.Length
        && Side(files[f0], |old(pipes)|, false) && Side(files[f1], |old(pipes)|, true)
    {
      hide Inv, PhysMem.FreeSet, PhysMem.AddrOf, PhysMem.PageOf, PipeAlloc, Got, FilesOk;
      ghost var s := View();
      f0, f1 := -1, -1;
      var page := alloc.AllocPage();
      if page == 0 {
        return;
      }
      var p := PhysMem.PageOf(page);
      PipeAllocKeeps(s, p);
      InvFiles(s);
      ghost var fs1;
      f0, f1, fs1 := TwoFiles();
      if f0 < 0 || f1 < 0 {
        OneGot(s, p, f0, fs1, f1, files[..]);
        FailAlloc(page, f0, s);
        return;
      }
      BothGot(s, p, f0, fs1, f1, files[..]);
      Connect(p, f0, f1);
    }

    method TwoFiles() returns (f0: int, f1: int, ghost fs1: seq<File>)
      modifies files
      ensures Got(old(files[..]), f0, fs1)
      ensures if f0 >= 0 then Got(fs1, f1, files[..]) else f1 < 0 && files[..] == fs1
    {
      f1 := -1;
      f0 := FileAlloc();
      fs1 := files[..];
      if f0 >= 0 {
        f1 := FileAlloc();
      }
    }

    method FailAlloc(page: nat, f0: int, ghost s: State)
      requires alloc.Valid() && (files as object) != alloc.bitmap && PhysMem.Managed(page)
      requires alloc.Free() == s.free - {PhysMem.PageOf(page)} && PhysMem.PageOf(page) in s.free && pipes == s.pipes
      requires f0 < 0 ==> files[..] == s.files
      requires f0 >= 0 ==> f0 < files.Length && f0 < |s.files| && s.files[f0].ref == 0 && s.files[f0].kind == NoFile
      requires f0 >= 0 ==> files[..] == s.files[f0 := WithRef(s.files[f0], 1)]
      modifies files, alloc, alloc.bitmap
      ensures alloc.Valid() && View() == s
    {
      hide PhysMem.FreeSet, PhysMem.PageOf, PhysMem.Managed, PhysMem.Allocator.Valid;
      alloc.FreePage(page);
      assert alloc.Free() == s.free;
      if f0 >= 0 {
        files[f0] := files[f0].(ref := 0, kind := NoFile);
      }
      assert files[..] == s.files;
    }

    method Connect(p: nat, f0: nat, f1: nat)
      requires f0 < files.Length && f1 < files.Length && f0 != f1 && files[f0].ref == 1 && files[f1].ref == 1
      modifies `pipes, files
      ensures pipes == old(pipes) + [Pipe(p, true, true, 0)]
      ensures files[..] == old(files[..])[f0 := EndFile(old(files[..])[f0], |old(pipes)|, false)]
                                         [f1 := EndFile(old(files[..])[f1], |old(pipes)|, true)]
      ensures Side(files[f0], |old(pipes)|, false) && Side(files[f1], |old(pipes)|, true)
    {
      ghost var fs := files[..];
      ghost var k := |pipes|;
      assert files[f0].ref == fs[f0].ref;
      pipes := pipes + [Pipe(p, true, true, 0)];
      files[f0] := files[f0].(kind := PipeEnd, readable := true, writable := false, pipe := |pipes| - 1);
      files[f1] := files[f1].(kind := PipeEnd, readable := false, writable := true, pipe := |pipes| - 1);
    }
  }

  lemma InvFiles(s: State)
    requires Inv(s)
    ensures FilesOk(s.files)
  {
  }

  lemma PagesInRange(s: State, i: nat)
    requires Inv(s) && i < |s.files|
    ensures s.files[i].kind == PipeEnd ==> s.files[i].pipe < |s.pipes|
  {
  }
}
