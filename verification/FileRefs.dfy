/** What the reference count of an open file counts: the references handed out and not yet given back. */
module FileRefs {
  import opened FileTable
  import opened FileLifetimes

  /** The table and, as history, every reference somebody holds, by entry. */
  datatype Held = Held(s: State, refs: multiset<nat>)

  /** The two entries pipe_alloc returns when it succeeds. */
  function Ends(fs: seq<File>): (nat, nat) {
    var i := FirstUnused(fs);
    if i < |fs| then (i, FirstUnused(fs[i := WithRef(fs[i], 1)])) else (i, i)
  }

  /** The references a step hands out to its caller. */
  function HandedOut(s: State, step: Step): multiset<nat> {
    match step
    case MakePipe(page) =>
      if page in s.free && PipeAlloc(s, page).1 then multiset{Ends(s.files).0, Ends(s.files).1} else multiset{}
    case MakeFile(kind, _, _) =>
      if kind != PipeEnd && kind != NoFile && FirstUnused(s.files) < |s.files| then multiset{FirstUnused(s.files)} else multiset{}
    case DupFile(i) => multiset{i}
    case CloseFile(_) => multiset{}
    case TakePage(_) => multiset{}
    case GivePage(_) => multiset{}
  }

  /** Only the holder of a reference can duplicate it or give it back. */
  predicate Entitled(h: Held, step: Step) {
    (step.DupFile? || step.CloseFile?) ==> step.i in h.refs
  }

  function DoHeld(h: Held, step: Step): (g: Held)
    requires Linked(h.s)
    ensures Linked(g.s)
  {
    if !Entitled(h, step) then h
    else Held(Do(h.s, step), h.refs + HandedOut(h.s, step) - if step.CloseFile? then multiset{step.i} else multiset{})
  }

  function RunHeld(h: Held, steps: seq<Step>): (g: Held)
    requires Linked(h.s)
    ensures Linked(g.s)
    decreases |steps|
  {
    if steps == [] then h else RunHeld(DoHeld(h, steps[0]), steps[1..])
  }

  // ---- the invariant ------------------------------------------------------

  ghost predicate Counted(fs: seq<File>, refs: multiset<nat>) {
    (forall i: nat :: i in refs ==> i < |fs|) && forall i: nat :: i < |fs| ==> fs[i].ref == refs[i]
  }

  /** A referenced entry is some kind of file; an end of a pipe is for reading or for writing, not both. */
  ghost predicate KindsOk(fs: seq<File>) {
    && (forall i :: 0 <= i < |fs| && fs[i].ref > 0 ==> fs[i].kind != NoFile)
    && (forall i :: 0 <= i < |fs| && fs[i].kind == PipeEnd ==> fs[i].readable == !fs[i].writable)
  }

  ghost predicate HeldOk(h: Held) {
    Inv(h.s) && Counted(h.s.files, h.refs) && KindsOk(h.s.files)
  }

  /** Entry `i` got `n` references more, or fewer, in a new shape. */
  lemma CountOne(fs: seq<File>, refs: multiset<nat>, i: nat, f: File, refs': multiset<nat>)
    requires Counted(fs, refs) && i < |fs| && forall k: nat :: refs'[k] == if k == i then f.ref else refs[k]
    ensures Counted(fs[i := f], refs')
  {
    forall k: nat | k in refs' ensures k < |fs| {
      assert refs'[k] > 0;
    }
  }

  lemma OneMore(refs: multiset<nat>, i: nat)
    ensures forall k: nat :: (refs + multiset{i} - multiset{})[k] == if k == i then refs[i] + 1 else refs[k]
  {
  }

  lemma OneLess(refs: multiset<nat>, i: nat)
    ensures i in refs ==> forall k: nat :: (refs + multiset{} - multiset{i})[k] == if k == i then refs[i] - 1 else refs[k]
  {
  }

  lemma CountIs(fs: seq<File>, refs: multiset<nat>, i: nat)
    requires Counted(fs, refs)
    ensures i < |fs| ==> refs[i] == fs[i].ref
    ensures i in refs ==> i < |fs| && fs[i].ref > 0
  {
  }

  lemma KindsAt(fs: seq<File>, i: nat)
    requires KindsOk(fs) && i < |fs|
    ensures fs[i].ref > 0 ==> fs[i].kind != NoFile
    ensures fs[i].kind == PipeEnd ==> fs[i].readable == !fs[i].writable
  {
  }

  lemma SetKinds(fs: seq<File>, i: nat, f: File)
    requires KindsOk(fs) && i < |fs| && (f.ref > 0 ==> f.kind != NoFile) && (f.kind == PipeEnd ==> f.readable == !f.writable)
    ensures KindsOk(fs[i := f])
  {
  }

  lemma MakeFileCounts(h: Held, kind: Kind, r: bool, w: bool)
    requires HeldOk(h)
    ensures HeldOk(DoHeld(h, MakeFile(kind, r, w)))
  {
    StepKeeps(h.s, MakeFile(kind, r, w));
    hide Inv, Counted, KindsOk;
    var fs, i := h.s.files, FirstUnused(h.s.files);
    if kind != PipeEnd && kind != NoFile && i < |fs| {
      var f := fs[i].(ref := 1, kind := kind, readable := r, writable := w);
      CountIs(fs, h.refs, i);
      OneMore(h.refs, i);
      CountOne(fs, h.refs, i, f, h.refs + multiset{i} - multiset{});
      SetKinds(fs, i, f);
    } else {
      assert h.refs + multiset{} - multiset{} == h.refs;
    }
  }

  lemma TwoMore(fs: seq<File>, refs: multiset<nat>, i: nat, j: nat, f: File, g: File)
    requires Counted(fs, refs) && i < |fs| && j < |fs| && i != j && fs[i].ref == 0 && fs[j].ref == 0
    requires f.ref == 1 && g.ref == 1
    ensures Counted(fs[i := f][j := g], refs + multiset{i, j})
  {
    var refs' := refs + multiset{i, j};
    assert refs[i] == 0 && refs[j] == 0;
    forall k: nat ensures refs'[k] == if k == i || k == j then 1 else refs[k] {
    }
  }

  lemma PipeCounts(h: Held, page: nat)
    requires HeldOk(h)
    ensures HeldOk(DoHeld(h, MakePipe(page)))
  {
    var s := h.s;
    StepKeeps(s, MakePipe(page));
    assert FilesOk(s.files) && Linked(s);
    hide Inv, FilesOk, PipeAlloc, Counted, KindsOk, Ends;
    if page in s.free && PipeAlloc(s, page).1 {
      var i, j, k := Ends(s.files).0, Ends(s.files).1, |s.pipes|;
      EndsTaken(s, page);
      var f, g := EndFile(s.files[i], k, false), EndFile(s.files[j], k, true);
      SetKinds(s.files, i, f);
      SetKinds(s.files[i := f], j, g);
      TwoMore(s.files, h.refs, i, j, f, g);
    } else if page in s.free {
      PipeAllocFailure(s, page);
      assert h.refs + multiset{} - multiset{} == h.refs;
    } else {
      assert h.refs + multiset{} - multiset{} == h.refs;
    }
  }

  lemma EndsTaken(s: State, page: nat)
    requires page in s.free && PipeAlloc(s, page).1
    ensures var (i, j) := Ends(s.files);
      && i < |s.files| && j < |s.files| && i != j && s.files[i].ref == 0 && s.files[j].ref == 0
      && PipeAlloc(s, page).0.files == s.files[i := EndFile(s.files[i], |s.pipes|, false)][j := EndFile(s.files[j], |s.pipes|, true)]
  {
    var i, j := Ends(s.files).0, Ends(s.files).1;
    var fs := s.files[i := WithRef(s.files[i], 1)];
    assert fs[i := EndFile(fs[i], |s.pipes|, false)] == s.files[i := EndFile(s.files[i], |s.pipes|, false)];
  }

  lemma DupIs(h: Held, i: nat)
    requires Linked(h.s) && i in h.refs && i < |h.s.files| && h.s.files[i].ref > 0
    ensures var f := h.s.files[i];
      DoHeld(h, DupFile(i)) ==
        Held(h.s.(files := h.s.files[i := WithRef(f, f.ref + 1)]), h.refs + multiset{i} - multiset{})
  {
  }

  lemma DupCounts(h: Held, i: nat)
    requires HeldOk(h)
    ensures HeldOk(DoHeld(h, DupFile(i)))
  {
    hide Inv, Counted, KindsOk, Do, DoHeld;
    var fs := h.s.files;
    IsLinked(h.s);
    if i in h.refs {
      CountIs(fs, h.refs, i);
      DupIs(h, i);
      DupKeeps(h.s, i);
      OneMore(h.refs, i);
      CountOne(fs, h.refs, i, WithRef(fs[i], fs[i].ref + 1), h.refs + multiset{i} - multiset{});
      KindsAt(fs, i);
      SetKinds(fs, i, WithRef(fs[i], fs[i].ref + 1));
    } else {
      NotEntitled(h, i);
    }
  }

  lemma NotEntitled(h: Held, i: nat)
    requires Linked(h.s) && i !in h.refs
    ensures DoHeld(h, DupFile(i)) == h
  {
  }

  lemma IsLinked(s: State)
    requires Inv(s)
    ensures Linked(s)
  {
  }

  lemma ClosedFiles(s: State, i: nat)
    requires Linked(s) && i < |s.files| && s.files[i].ref > 0
    ensures Close(s, i).files ==
      s.files[i := if s.files[i].ref > 1 then WithRef(s.files[i], s.files[i].ref - 1) else s.files[i].(ref := 0, kind := NoFile)]
  {
  }

  lemma CloseCounts(h: Held, i: nat)
    requires HeldOk(h)
    ensures HeldOk(DoHeld(h, CloseFile(i)))
  {
    StepKeeps(h.s, CloseFile(i));
    assert Linked(h.s);
    hide Inv, Counted, KindsOk, Close;
    var fs := h.s.files;
    if i in h.refs {
      CountIs(fs, h.refs, i);
      ClosedFiles(h.s, i);
      var f := if fs[i].ref > 1 then WithRef(fs[i], fs[i].ref - 1) else fs[i].(ref := 0, kind := NoFile);
      OneLess(h.refs, i);
      CountOne(fs, h.refs, i, f, h.refs + multiset{} - multiset{i});
      KindsAt(fs, i);
      SetKinds(fs, i, f);
    }
  }

  lemma StepCounts(h: Held, step: Step)
    requires HeldOk(h)
    ensures HeldOk(DoHeld(h, step))
  {
    match step
    case MakePipe(page) => PipeCounts(h, page);
    case MakeFile(kind, r, w) => MakeFileCounts(h, kind, r, w);
    case DupFile(i) => DupCounts(h, i);
    case CloseFile(i) => CloseCounts(h, i);
    case TakePage(_) => StepKeeps(h.s, step);
    case GivePage(_) => StepKeeps(h.s, step);
  }

  lemma {:induction false} RunCounts(h: Held, steps: seq<Step>)
    requires HeldOk(h)
    ensures HeldOk(RunHeld(h, steps))
    decreases |steps|
  {
    if steps != [] {
      StepCounts(h, steps[0]);
      hide HeldOk, DoHeld;
      RunCounts(DoHeld(h, steps[0]), steps[1..]);
    }
  }

  lemma FreshHeld(s: State)
    requires Fresh(s) && Linked(s)
    ensures HeldOk(Held(s, multiset{}))
  {
  }

  // ---- over every run -----------------------------------------------------

  /** Somebody holds a reference to an end of pipe `k`. */
  predicate EndHeld(h: Held, k: nat) {
    exists i: nat :: i in h.refs && i < |h.s.files| && h.s.files[i].kind == PipeEnd && h.s.files[i].pipe == k
  }

  lemma EndIsSide(h: Held, k: nat)
    requires Counted(h.s.files, h.refs)
    ensures EndHeld(h, k) <==> HasSide(h.s.files, k, false) || HasSide(h.s.files, k, true)
  {
    var fs := h.s.files;
    if EndHeld(h, k) {
      var i: nat :| i in h.refs && i < |fs| && fs[i].kind == PipeEnd && fs[i].pipe == k;
      assert Side(fs[i], k, fs[i].writable);
    }
    forall w | HasSide(fs, k, w) ensures EndHeld(h, k) {
      var i :| 0 <= i < |fs| && Side(fs[i], k, w);
      assert i in h.refs;
    }
  }

  lemma PageStands(h: Held, k: nat)
    requires HeldOk(h) && k < |h.s.pipes|
    ensures h.s.pipes[k].freed == if EndHeld(h, k) then 0 else 1
    ensures EndHeld(h, k) ==> h.s.pipes[k].page !in h.s.free
  {
    EndIsSide(h, k);
    hide HasSide, EndHeld, Counted, KindsOk, FilesOk;
    var p := h.s.pipes[k];
    assert PipeOk(h.s.files, p, k);
    assert p.Open(false) <==> HasSide(h.s.files, k, false);
    assert p.Open(true) <==> HasSide(h.s.files, k, true);
  }

  /** In every run the count of an entry is the number of references to it handed out and not given back, so it is
      free exactly when nobody holds one; and the page of a pipe has been given back, once, exactly when the last
      reference to either of its ends has been. */
  lemma RefsAreCounted(s: State, steps: seq<Step>, h: Held)
    requires Fresh(s) && Linked(s) && h == RunHeld(Held(s, multiset{}), steps)
    ensures forall i: nat :: i < |h.s.files| ==> h.s.files[i].ref == h.refs[i]
    ensures forall i: nat :: i in h.refs ==> i < |h.s.files| && h.s.files[i].kind != NoFile
    ensures forall k: nat :: k < |h.s.pipes| ==> h.s.pipes[k].freed == if EndHeld(h, k) then 0 else 1
    ensures forall k: nat :: k < |h.s.pipes| && EndHeld(h, k) ==> h.s.pipes[k].page !in h.s.free
    ensures forall i :: 0 <= i < |h.s.files| && h.s.files[i].kind == PipeEnd ==> h.s.files[i].readable == !h.s.files[i].writable
  {
    FreshHeld(s);
    RunCounts(Held(s, multiset{}), steps);
    hide Inv, RunHeld, EndHeld;
    forall k: nat | k < |h.s.pipes|
      ensures h.s.pipes[k].freed == if EndHeld(h, k) then 0 else 1
      ensures EndHeld(h, k) ==> h.s.pipes[k].page !in h.s.free
    {
      PageStands(h, k);
    }
  }

  /** While a reference is held, its entry stays what it was when it was handed out, whatever other holders do. */
  lemma HeldStays(h: Held, step: Step, i: nat)
    requires HeldOk(h) && i in h.refs && i in DoHeld(h, step).refs
    ensures HeldOk(DoHeld(h, step)) && i < |h.s.files| && i < |DoHeld(h, step).s.files|
    ensures var f, g := h.s.files[i], DoHeld(h, step).s.files[i];
      g == f.(ref := g.ref)
  {
    StepCounts(h, step);
    assert h.s.files[i].ref > 0 && DoHeld(h, step).s.files[i].ref > 0;
    hide HeldOk;
    StepStays(h.s, step, i);
  }

  lemma StepStays(s: State, step: Step, i: nat)
    requires Inv(s) && i < |s.files| && s.files[i].ref > 0 && i < |Do(s, step).files| && Do(s, step).files[i].ref > 0
    ensures Do(s, step).files[i] == s.files[i].(ref := Do(s, step).files[i].ref)
  {
    assert FilesOk(s.files) && Linked(s);
    hide Inv;
    match step
    case MakePipe(page) =>
      hide FilesOk, Ends;
      if page in s.free {
        if PipeAlloc(s, page).1 { EndsTaken(s, page); } else { PipeAllocFailure(s, page); }
      }
      hide PipeAlloc;
    case MakeFile(_, _, _) =>
    case DupFile(_) =>
    case CloseFile(k) =>
      if k < |s.files| && s.files[k].ref > 0 { ClosedFiles(s, k); }
      hide Close;
    case TakePage(_) =>
    case GivePage(_) =>
  }
}
