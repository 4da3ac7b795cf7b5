/** Over every run: unreferenced entries are FD_NONE, and the page of a pipe is given back exactly once. */
module FileLifetimes {
  import opened FileTable

  /** Nothing about open sides depends on whether the entry is `a` or `b`. */
  ghost predicate SameSides(a: File, b: File) { forall k: nat, w :: Side(a, k, w) == Side(b, k, w) }

  lemma HasSideSame(fs: seq<File>, i: nat, f: File, k: nat, w: bool)
    requires i < |fs| && Side(fs[i], k, w) == Side(f, k, w)
    ensures HasSide(fs[i := f], k, w) <==> HasSide(fs, k, w)
  {
    var gs := fs[i := f];
    hide Side;
    if HasSide(fs, k, w) {
      var j :| 0 <= j < |fs| && Side(fs[j], k, w);
      assert Side(gs[j], k, w);
    }
    if HasSide(gs, k, w) {
      var j :| 0 <= j < |gs| && Side(gs[j], k, w);
      assert Side(fs[j], k, w);
    }
  }

  lemma HasSideSet(fs: seq<File>, i: nat, f: File, k: nat, w: bool)
    requires i < |fs| && Side(f, k, w)
    ensures HasSide(fs[i := f], k, w)
  {
    assert fs[i := f][i] == f;
  }

  /** The only holder of a side lets go. */
  lemma HasSideGone(fs: seq<File>, i: nat, f: File, k: nat, w: bool)
    requires i < |fs| && FilesOk(fs) && Side(fs[i], k, w) && !Side(f, k, w)
    ensures !HasSide(fs[i := f], k, w)
  {
    hide Side;
    assert forall j :: 0 <= j < |fs| && j != i ==> !Side(fs[j], k, w);
  }

  lemma FilesSame(fs: seq<File>, i: nat, f: File)
    requires i < |fs| && FilesOk(fs) && (f.ref == 0 ==> f.kind == NoFile)
    requires forall k: nat, w :: Side(f, k, w) ==> Side(fs[i], k, w)
    ensures FilesOk(fs[i := f])
  {
    hide Side;
  }

  lemma PipesSame(fs: seq<File>, i: nat, f: File, pipes: seq<Pipe>)
    requires i < |fs| && SameSides(fs[i], f) && forall k: nat :: k < |pipes| ==> PipeOk(fs, pipes[k], k)
    ensures forall k: nat :: k < |pipes| ==> PipeOk(fs[i := f], pipes[k], k)
  {
    hide Side, HasSide;
    forall k: nat | k < |pipes| ensures PipeOk(fs[i := f], pipes[k], k) {
      forall w ensures HasSide(fs[i := f], k, w) <==> HasSide(fs, k, w) {
        HasSideSame(fs, i, f, k, w);
      }
    }
  }

  /** An entry changes without any pipe noticing. */
  lemma EntryKeeps(s: State, i: nat, f: File)
    requires Inv(s) && i < |s.files| && SameSides(s.files[i], f) && (f.ref == 0 ==> f.kind == NoFile)
    requires f.kind == PipeEnd ==> f.pipe < |s.pipes|
    ensures Inv(s.(files := s.files[i := f]))
  {
    hide Side, HasSide, PipeOk, PagesOk, FilesOk;
    FilesSame(s.files, i, f);
    PipesSame(s.files, i, f, s.pipes);
  }

  lemma DupKeeps(s: State, i: nat)
    requires Inv(s) && i < |s.files|
    ensures Inv(Dup(s, i))
  {
    if s.files[i].ref > 0 {
      EntryKeeps(s, i, WithRef(s.files[i], s.files[i].ref + 1));
    }
  }

  lemma OpenKeeps(s: State, kind: Kind, r: bool, w: bool)
    requires Inv(s) && kind != PipeEnd
    ensures Inv(OpenFile(s, kind, r, w))
  {
    var i := FirstUnused(s.files);
    if i < |s.files| {
      EntryKeeps(s, i, s.files[i].(ref := 1, kind := kind, readable := r, writable := w));
    }
  }

  /** A file is made in the first free entry, of the kind and for the directions asked for, with one reference; with
      no entry free nothing changes. */
  lemma MadeFile(s: State, kind: Kind, r: bool, w: bool)
    ensures var t, i := OpenFile(s, kind, r, w), FirstUnused(s.files);
      && t.pipes == s.pipes && t.free == s.free && |t.files| == |s.files|
      && (forall j :: 0 <= j < |s.files| && j != i ==> t.files[j] == s.files[j])
      && (i < |s.files| ==>
            && s.files[i].ref == 0 && t.files[i].ref == 1 && t.files[i].kind == kind
            && t.files[i].readable == r && t.files[i].writable == w)
  {
  }

  // ---- close --------------------------------------------------------------

  function Shut(f: File): File { f.(ref := 0, kind := NoFile) }

  function AfterClose(p: Pipe, writable: bool): Pipe {
    var q := if writable then p.(writeopen := false) else p.(readopen := false);
    if q.Live() then q else q.(freed := q.freed + 1)
  }

  lemma ClosedPipeOk(fs: seq<File>, i: nat, p: Pipe, k: nat)
    requires i < |fs| && FilesOk(fs) && Side(fs[i], k, fs[i].writable) && PipeOk(fs, p, k)
    ensures PipeOk(fs[i := Shut(fs[i])], AfterClose(p, fs[i].writable), k)
  {
    var w := fs[i].writable;
    HasSideGone(fs, i, Shut(fs[i]), k, w);
    HasSideSame(fs, i, Shut(fs[i]), k, !w);
    assert p.Open(w) by {
      assert HasSide(fs, k, w);
    }
    hide HasSide;
  }

  lemma OtherPipeOk(fs: seq<File>, i: nat, p: Pipe, k: nat)
    requires i < |fs| && fs[i].pipe != k && PipeOk(fs, p, k)
    ensures PipeOk(fs[i := Shut(fs[i])], p, k)
  {
    HasSideSame(fs, i, Shut(fs[i]), k, true);
    HasSideSame(fs, i, Shut(fs[i]), k, false);
    hide HasSide;
  }

  lemma ClosedPagesOk(pipes: seq<Pipe>, free: set<nat>, k: nat, w: bool)
    requires PagesOk(pipes, free) && k < |pipes| && pipes[k].Live()
    ensures var q := AfterClose(pipes[k], w);
      PagesOk(pipes[k := q], if q.Live() then free else free + {q.page})
  {
  }

  lemma EndClosed(s: State, i: nat)
    requires Inv(s) && i < |s.files| && s.files[i].ref == 1 && s.files[i].kind == PipeEnd
    ensures var k, w := s.files[i].pipe, s.files[i].writable;
      var q := AfterClose(s.pipes[k], w);
      && s.pipes[k].Live() && s.pipes[k].Open(w)
      && Close(s, i) == State(s.files[i := Shut(s.files[i])], s.pipes[k := q], if q.Live() then s.free else s.free + {q.page})
  {
    var k := s.files[i].pipe;
    assert PipeOk(s.files, s.pipes[k], k);
    assert HasSide(s.files, k, s.files[i].writable) by {
      assert Side(s.files[i], k, s.files[i].writable);
    }
  }

  lemma CloseEndKeeps(s: State, i: nat)
    requires Inv(s) && i < |s.files| && s.files[i].ref == 1 && s.files[i].kind == PipeEnd
    ensures Inv(Close(s, i))
  {
    EndClosed(s, i);
    var t := Close(s, i);
    var kk, w := s.files[i].pipe, s.files[i].writable;
    hide Close, PagesOk, FilesOk, PipeOk, AfterClose, HasSide;
    ClosedPagesOk(s.pipes, s.free, kk, w);
    FilesSame(s.files, i, Shut(s.files[i]));
    forall k: nat | k < |t.pipes| ensures PipeOk(t.files, t.pipes[k], k) {
      if k == kk {
        ClosedPipeOk(s.files, i, s.pipes[k], k);
      } else {
        OtherPipeOk(s.files, i, s.pipes[k], k);
      }
    }
  }

  lemma CloseKeeps(s: State, i: nat)
    requires Inv(s) && i < |s.files|
    ensures Inv(Close(s, i))
  {
    var f := s.files[i];
    if f.ref > 1 {
      EntryKeeps(s, i, WithRef(f, f.ref - 1));
    } else if f.ref == 1 {
      if f.kind == PipeEnd {
        CloseEndKeeps(s, i);
      } else {
        EntryKeeps(s, i, Shut(f));
      }
    }
  }

  // ---- pipe_alloc ---------------------------------------------------------

  /** A failing pipe_alloc leaves the page bitmap and every file-table entry as they were. */
  lemma PipeAllocFailure(s: State, page: nat)
    requires FilesOk(s.files) && page in s.free && !PipeAlloc(s, page).1
    ensures PipeAlloc(s, page).0 == s
  {
    assert s.free - {page} + {page} == s.free;
    var i := FirstUnused(s.files);
    if i < |s.files| {
      var fs := s.files[i := WithRef(s.files[i], 1)];
      assert fs[i := fs[i].(ref := 0, kind := NoFile)] == s.files;
    }
  }

  lemma PipeAllocSuccess(s: State, page: nat) returns (i: nat, j: nat)
    requires page in s.free && PipeAlloc(s, page).1
    ensures i < |s.files| && j < |s.files| && i != j && s.files[i].ref == 0 && s.files[j].ref == 0
    ensures var k := |s.pipes|;
      PipeAlloc(s, page).0 == State(s.files[i := EndFile(s.files[i], k, false)][j := EndFile(s.files[j], k, true)],
                                    s.pipes + [Pipe(page, true, true, 0)], s.free - {page})
  {
    i := FirstUnused(s.files);
    var fs := s.files[i := WithRef(s.files[i], 1)];
    j := FirstUnused(fs);
    assert fs[i := EndFile(fs[i], |s.pipes|, false)] == s.files[i := EndFile(s.files[i], |s.pipes|, false)];
  }

  lemma SetEnd(fs: seq<File>, i: nat, k: nat, w: bool)
    requires i < |fs| && FilesOk(fs) && fs[i].ref == 0 && !HasSide(fs, k, w)
    ensures var gs := fs[i := EndFile(fs[i], k, w)];
      && FilesOk(gs) && HasSide(gs, k, w) && (HasSide(gs, k, !w) <==> HasSide(fs, k, !w))
      && forall l: nat, v :: l != k ==> (HasSide(gs, l, v) <==> HasSide(fs, l, v))
  {
    var f := EndFile(fs[i], k, w);
    HasSideSet(fs, i, f, k, w);
    HasSideSame(fs, i, f, k, !w);
    forall l: nat, v | l != k ensures HasSide(fs[i := f], l, v) <==> HasSide(fs, l, v) {
      HasSideSame(fs, i, f, l, v);
    }
    SetEndFiles(fs, i, k, w);
  }

  lemma SetEndFiles(fs: seq<File>, i: nat, k: nat, w: bool)
    requires i < |fs| && FilesOk(fs) && !HasSide(fs, k, w)
    ensures FilesOk(fs[i := EndFile(fs[i], k, w)])
  {
    assert forall j :: 0 <= j < |fs| ==> !Side(fs[j], k, w);
  }

  lemma NoSides(s: State, k: nat, w: bool)
    requires Linked(s) && k >= |s.pipes|
    ensures !HasSide(s.files, k, w)
  {
  }

  lemma PipeAllocKeeps(s: State, page: nat)
    requires Inv(s) && page in s.free
    ensures Inv(PipeAlloc(s, page).0)
  {
    if !PipeAlloc(s, page).1 {
      PipeAllocFailure(s, page);
    } else {
      var i, j := PipeAllocSuccess(s, page);
      MakesEnds(s, page, i, j, |s.pipes|);
    }
  }

  lemma MakesEnds(s: State, page: nat, i: nat, j: nat, n: nat)
    requires Inv(s) && page in s.free && i < |s.files| && j < |s.files| && i != j && n == |s.pipes|
    requires s.files[i].ref == 0 && s.files[j].ref == 0
    ensures Inv(State(s.files[i := EndFile(s.files[i], n, false)][j := EndFile(s.files[j], n, true)],
                      s.pipes + [Pipe(page, true, true, 0)], s.free - {page}))
  {
    NoSides(s, n, false);
    NoSides(s, n, true);
    var gs := s.files[i := EndFile(s.files[i], n, false)];
    var hs := gs[j := EndFile(gs[j], n, true)];
    assert FilesOk(s.files) && PagesOk(s.pipes, s.free);
    assert Linked(State(hs, s.pipes + [Pipe(page, true, true, 0)], s.free));
    hide FilesOk, HasSide, PagesOk;
    SetEnd(s.files, i, n, false);
    SetEnd(gs, j, n, true);
    PageTaken(s.pipes, s.free, page);
    var pipes := s.pipes + [Pipe(page, true, true, 0)];
    forall k: nat | k < |pipes| ensures PipeOk(hs, pipes[k], k) {
      assert k < n ==> PipeOk(s.files, s.pipes[k], k);
    }
  }

  lemma PageTaken(pipes: seq<Pipe>, free: set<nat>, page: nat)
    requires PagesOk(pipes, free) && page in free
    ensures PagesOk(pipes + [Pipe(page, true, true, 0)], free - {page})
  {
  }

  // ---- whole runs ---------------------------------------------------------

  lemma StepKeeps(s: State, step: Step)
    requires Inv(s)
    ensures Inv(Do(s, step))
  {
    hide FilesOk, PipeOk;
    match step
    case MakePipe(page) => if page in s.free { PipeAllocKeeps(s, page); }
    case MakeFile(kind, r, w) => if kind != PipeEnd { OpenKeeps(s, kind, r, w); }
    case DupFile(i) => if i < |s.files| { DupKeeps(s, i); }
    case CloseFile(i) => if i < |s.files| { CloseKeeps(s, i); }
    case TakePage(_) =>
    case GivePage(_) =>
  }

  function Run(s: State, steps: seq<Step>): (t: State)
    requires Linked(s)
    ensures Linked(t)
    decreases |steps|
  {
    if steps == [] then s else Run(Do(s, steps[0]), steps[1..])
  }

  lemma {:induction false} RunKeeps(s: State, steps: seq<Step>)
    requires Inv(s)
    ensures Inv(Run(s, steps))
    decreases |steps|
  {
    if steps != [] {
      StepKeeps(s, steps[0]);
      hide Inv, Do;
      RunKeeps(Do(s, steps[0]), steps[1..]);
    }
  }

  /** The table at boot: no file, no pipe. */
  ghost predicate Fresh(s: State) {
    s.pipes == [] && forall i :: 0 <= i < |s.files| ==> s.files[i].ref == 0 && s.files[i].kind == NoFile
  }

  /** In every reachable state an unreferenced entry is FD_NONE; a pipe's page has been given back exactly once if
      no file holds an end of it and not at all otherwise; and the pages of open pipes are allocated and distinct. */
  lemma Lifetimes(s: State, steps: seq<Step>, t: State)
    requires Fresh(s) && Linked(s) && t == Run(s, steps)
    ensures forall i :: 0 <= i < |t.files| && t.files[i].ref == 0 ==> t.files[i].kind == NoFile
    ensures forall k: nat :: k < |t.pipes| ==>
      t.pipes[k].freed == if HasSide(t.files, k, false) || HasSide(t.files, k, true) then 0 else 1
    ensures forall k: nat, w :: k < |t.pipes| && HasSide(t.files, k, w) ==> t.pipes[k].page !in t.free
    ensures forall k: nat, l: nat, w, v :: k < l < |t.pipes| && HasSide(t.files, k, w) && HasSide(t.files, l, v) ==>
      t.pipes[k].page != t.pipes[l].page
  {
    RunKeeps(s, steps);
    hide HasSide;
    forall k: nat | k < |t.pipes|
      ensures t.pipes[k].Live() <==> HasSide(t.files, k, false) || HasSide(t.files, k, true)
      ensures PipeOk(t.files, t.pipes[k], k)
    {
      assert t.pipes[k].Open(false) <==> HasSide(t.files, k, false);
      assert t.pipes[k].Open(true) <==> HasSide(t.files, k, true);
    }
  }

  /** The page goes back at one kind of step only: the last close of an end whose other side is already closed. */
  lemma FreedAtLastClose(s: State, step: Step, k: nat)
    requires Inv(s) && k < |s.pipes|
    ensures |s.pipes| <= |Do(s, step).pipes|
    ensures Do(s, step).pipes[k].freed != s.pipes[k].freed <==>
      step.CloseFile? && step.i < |s.files|
      && Side(s.files[step.i], k, s.files[step.i].writable) && s.files[step.i].ref == 1 && !s.pipes[k].Open(!s.files[step.i].writable)
  {
    if step.CloseFile? && step.i < |s.files| && s.files[step.i].ref == 1 && s.files[step.i].kind == PipeEnd {
      EndClosed(s, step.i);
    }
  }
}
