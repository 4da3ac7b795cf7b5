/** Page conservation and pid uniqueness over every run of the process table. */
module ProcOwnership {
  import opened Wrappers
  import opened ProcTable

  // ---- fork ---------------------------------------------------------------

  /** A slot as fork has claimed it. */
  predicate ClaimedSlot(p: Proc) {
    p.status == Used && p.table.None? && p.stack.None? && p.frame.None?
  }

  lemma LowestIn(free: set<nat>)
    requires free != {}
    ensures Lowest(free) in free
  {
  }

  /** Only free pages changed. */
  ghost predicate SameFrames(frames: map<nat, seq<nat>>, frames': map<nat, seq<nat>>, free: set<nat>) {
    forall p: nat :: p !in free ==> (p in frames' <==> p in frames) && (p in frames ==> frames'[p] == frames[p])
  }

  lemma CopyOutside(frames: map<nat, seq<nat>>, parent: Option<nat>, child: nat, free: set<nat>)
    requires child in free
    ensures SameFrames(frames, CopyFrame(frames, parent, child), free)
  {
  }

  lemma TableOutcome(s: State, i: nat) returns (t: nat)
    requires i < |s.procs|
    ensures var r := GiveTable(s, i);
      if s.free == {} then r == (FreeProc(s, i), -1)
      else
        && t in s.free && r.1 == s.procs[i].pid
        && r.0 == s.(procs := s.procs[i := s.procs[i].(table := Some(t), status := Runnable)], free := s.free - {t})
  {
    t := 0;
    if s.free != {} {
      t := Lowest(s.free);
    }
  }

  lemma FrameOutcome(s: State, c: nat, i: nat) returns (f: nat, t: nat)
    requires i < |s.procs| && c < |s.procs| && s.procs[i].frame.None? && s.procs[i].table.None?
    ensures var r := GiveFrame(s, c, i);
      if |s.free| < 2 then
        && r.1 == -1 && r.0.free == s.free + PagesOf(s.procs[i]) && r.0.procs == s.procs[i := Emptied(s.procs[i])]
        && r.0.nextPid == s.nextPid && r.0.current == s.current && SameFrames(s.frames, r.0.frames, s.free)
      else
        && f in s.free && t in s.free && f != t && r.1 == s.procs[i].pid
        && r.0 == State(s.procs[i := s.procs[i].(frame := Some(f), table := Some(t), status := Runnable)],
                        s.nextPid, s.current, s.free - {f, t}, CopyFrame(s.frames, s.procs[c].frame, f))
  {
    hide GiveTable, CopyFrame, Lowest, PagesOf, PageSet;
    f, t := 0, 0;
    if s.free != {} {
      f := Lowest(s.free);
      LowestIn(s.free);
      OneLess(s.free, f);
      FramePages(s.procs[i], f, s.free);
      CopyOutside(s.frames, s.procs[c].frame, f, s.free);
      var s1 := SetProc(s, i, s.procs[i].(frame := Some(f))).(free := s.free - {f}, frames := CopyFrame(s.frames, s.procs[c].frame, f));
      t := TableOutcome(s1, i);
      assert s.free - {f} - {t} == s.free - {f, t};
    }
  }

  lemma OneLess(free: set<nat>, k: nat)
    requires k in free
    ensures |free - {k}| == |free| - 1 && free - {k} + {k} == free
  {
  }

  lemma FramePages(p: Proc, f: nat, free: set<nat>)
    requires p.frame.None? && f in free
    ensures (free - {f}) + PagesOf(p.(frame := Some(f))) == free + PagesOf(p)
  {
    assert PagesOf(p.(frame := Some(f))) == PagesOf(p) + {f};
  }

  lemma StackPages(p: Proc, k: nat)
    requires ClaimedSlot(p)
    ensures PagesOf(p) == {} && PagesOf(p.(stack := Some(k))) == {k}
  {
  }

  /** What fork does with the pages: with three free it takes three different ones, with fewer it fails and gives
      back those it took. */
  lemma PopulateOutcome(s: State, c: nat, i: nat) returns (k: nat, f: nat, t: nat)
    requires i < |s.procs| && c < |s.procs| && c != i && ClaimedSlot(s.procs[i])
    ensures var r := Populate(s, c, i);
      if |s.free| < 3 then
        && r.1 == -1 && r.0.free == s.free && r.0.procs == s.procs[i := Emptied(s.procs[i])]
        && r.0.nextPid == s.nextPid && r.0.current == s.current && SameFrames(s.frames, r.0.frames, s.free)
      else
        && k in s.free && f in s.free && t in s.free && k != f && k != t && f != t && r.1 == s.procs[i].pid
        && r.0 == State(s.procs[i := s.procs[i].(stack := Some(k), frame := Some(f), table := Some(t), status := Runnable)],
                        s.nextPid, s.current, s.free - {k, f, t}, CopyFrame(s.frames, s.procs[c].frame, f))
  {
    hide GiveFrame, CopyFrame, Lowest, PagesOf, PageSet;
    k, f, t := 0, 0, 0;
    StackPages(s.procs[i], k);
    if s.free != {} {
      k := Lowest(s.free);
      LowestIn(s.free);
      OneLess(s.free, k);
      StackPages(s.procs[i], k);
      var s1 := SetProc(s, i, s.procs[i].(stack := Some(k))).(free := s.free - {k});
      f, t := FrameOutcome(s1, c, i);
      assert s.free - {k} - {f, t} == s.free - {k, f, t};
    }
  }

  function Child(s: State, c: nat, k: nat, f: nat, t: nat): Proc
    requires c < |s.procs|
  {
    Proc(Runnable, s.nextPid, Some(c), s.procs[c].sz, 0, Some(t), Some(k), Some(f))
  }

  /** The registers of a process whose frame is `page`. */
  predicate HasRegisters(frames: map<nat, seq<nat>>, page: Option<nat>) {
    page.Some? && page.value in frames && |frames[page.value]| == NREGS
  }

  /** The frame page `child` holds the registers of `parent`, except that a0 is 0; every other page is as before. */
  ghost predicate Inherits(frames: map<nat, seq<nat>>, frames': map<nat, seq<nat>>, parent: Option<nat>, child: nat) {
    && (HasRegisters(frames, parent) ==>
          && child in frames' && |frames'[child]| == NREGS && frames'[child][A0] == 0
          && forall k :: 0 <= k < NREGS && k != A0 ==> frames'[child][k] == frames[parent.value][k])
    && (!HasRegisters(frames, parent) ==> frames' == frames)
    && (forall p: nat :: p != child ==> (p in frames' <==> p in frames))
    && forall p: nat :: p != child && p in frames ==> frames'[p] == frames[p]
  }

  lemma CopyInherits(frames: map<nat, seq<nat>>, parent: Option<nat>, child: nat)
    ensures Inherits(frames, CopyFrame(frames, parent, child), parent, child)
  {
  }

  /** A fork that fails leaves the page bitmap and every used slot as they were; it fails exactly when no slot is
      unused or fewer than three pages are free. Otherwise the child has a fresh pid, three pages of its own, and
      the parent's registers with a0 cleared. */
  lemma ForkOutcome(s: State) returns (i: nat, k: nat, f: nat, t: nat)
    requires CurrentAlive(s)
    ensures i == FirstUnused(s.procs)
    ensures var r := Fork(s);
      var c := s.current.value;
      if i == |s.procs| then r == (s, -1)
      else if |s.free| < 3 then
        && r.1 == -1 && r.0.free == s.free && r.0.current == s.current && r.0.nextPid == s.nextPid + 1
        && SameFrames(s.frames, r.0.frames, s.free)
        && |r.0.procs| == |s.procs| && r.0.procs == s.procs[i := r.0.procs[i]]
        && r.0.procs[i].status == Unused && PagesOf(r.0.procs[i]) == {}
      else
        && k in s.free && f in s.free && t in s.free && k != f && k != t && f != t && r.1 == s.nextPid
        && r.0 == State(s.procs[i := Child(s, c, k, f, t)], s.nextPid + 1, s.current, s.free - {k, f, t}, r.0.frames)
        && Inherits(s.frames, r.0.frames, s.procs[c].frame, f)
  {
    hide Populate, CopyFrame, Inherits;
    i, k, f, t := FirstUnused(s.procs), 0, 0, 0;
    if i < |s.procs| {
      var c := s.current.value;
      var s1 := Claimed(s, i);
      var s2 := SetProc(s1, i, s1.procs[i].(parent := Some(c), sz := s1.procs[c].sz));
      assert s2.procs == s.procs[i := s2.procs[i]] && s2.procs[c] == s.procs[c];
      k, f, t := PopulateOutcome(s2, c, i);
      CopyInherits(s.frames, s.procs[c].frame, f);
    }
  }

  /** fork returns 0 in the child and leaves the parent's registers, and everybody else's, alone. */
  lemma ForkRegisters(s: State, j: nat)
    requires Inv(s) && CurrentAlive(s) && Fork(s).1 != -1 && HasRegisters(s.frames, s.procs[s.current.value].frame)
    requires j < |s.procs| && s.procs[j].status != Unused && HasRegisters(s.frames, s.procs[j].frame)
    ensures var t, i, c := Fork(s).0, FirstUnused(s.procs), s.current.value;
      && i < |t.procs| == |s.procs| && HasRegisters(t.frames, t.procs[i].frame)
      && t.frames[t.procs[i].frame.value] == s.frames[s.procs[c].frame.value][A0 := 0]
      && t.procs[j] == s.procs[j] && HasRegisters(t.frames, t.procs[j].frame)
      && t.frames[t.procs[j].frame.value] == s.frames[s.procs[j].frame.value]
  {
    hide Fork;
    var i, k, f, t := ForkOutcome(s);
    var u, c := Fork(s).0, s.current.value;
    assert u.procs[i].frame == Some(f);
    assert f != s.procs[j].frame.value by {
      assert PagesOf(s.procs[j]) !! s.free;
      assert s.procs[j].frame.value in PagesOf(s.procs[j]);
    }
    hide Owning, PidsOk;
    assert u.frames[f] == s.frames[s.procs[c].frame.value][A0 := 0];
  }

  // ---- ownership ----------------------------------------------------------

  /** A slot takes pages out of the free ones. */
  lemma OwningTake(ps: seq<Proc>, free: set<nat>, i: nat, p: Proc)
    requires Owning(ps, free) && i < |ps| && ps[i].status == Unused && Whole(p) && PagesOf(p) <= free
    ensures Owning(ps[i := p], free - PagesOf(p))
    ensures Owned(ps[i := p]) + (free - PagesOf(p)) == Owned(ps) + free
  {
    var qs := ps[i := p];
    hide PagesOf;
    forall q | q in Owned(qs) + (free - PagesOf(p)) ensures q in Owned(ps) + free {
      if q in Owned(qs) {
        var j :| 0 <= j < |qs| && q in PagesOf(qs[j]);
        assert j != i ==> q in PagesOf(ps[j]);
      }
    }
    forall q | q in Owned(ps) ensures q in Owned(qs) {
      var j :| 0 <= j < |ps| && q in PagesOf(ps[j]);
      assert q in PagesOf(qs[j]);
    }
    forall q | q in PagesOf(p) ensures q in Owned(qs) {
      assert q in PagesOf(qs[i]);
    }
  }

  lemma EmptiedOwnsNothing(p: Proc)
    ensures PagesOf(Emptied(p)) == {} && Whole(Emptied(p))
  {
  }

  lemma OwnersApart(ps: seq<Proc>, free: set<nat>, i: nat, j: nat)
    requires Owning(ps, free) && i < |ps| && j < |ps| && i != j
    ensures PagesOf(ps[i]) !! PagesOf(ps[j]) && PagesOf(ps[j]) !! free && Whole(ps[j])
  {
    hide PagesOf, Whole;
  }

  lemma OwnedDrop(ps: seq<Proc>, i: nat)
    requires i < |ps|
    ensures Owned(ps) == Owned(ps[i := Emptied(ps[i])]) + PagesOf(ps[i])
  {
    var qs := ps[i := Emptied(ps[i])];
    EmptiedOwnsNothing(ps[i]);
    hide PagesOf, Emptied;
    forall q | q in Owned(ps) ensures q in Owned(qs) + PagesOf(ps[i]) {
      var j :| 0 <= j < |ps| && q in PagesOf(ps[j]);
      assert j != i ==> q in PagesOf(qs[j]);
    }
    forall q | q in Owned(qs) ensures q in Owned(ps) {
      var j :| 0 <= j < |qs| && q in PagesOf(qs[j]);
      assert q in PagesOf(ps[j]);
    }
    forall q | q in PagesOf(ps[i]) ensures q in Owned(ps) {
    }
  }

  /** free_proc. */
  lemma OwningDrop(ps: seq<Proc>, free: set<nat>, i: nat)
    requires Owning(ps, free) && i < |ps|
    ensures Owning(ps[i := Emptied(ps[i])], free + PagesOf(ps[i]))
    ensures Owned(ps[i := Emptied(ps[i])]) + (free + PagesOf(ps[i])) == Owned(ps) + free
  {
    var qs := ps[i := Emptied(ps[i])];
    OwnedDrop(ps, i);
    EmptiedOwnsNothing(ps[i]);
    hide PagesOf, Whole, Emptied, Owned;
    forall j | 0 <= j < |qs| ensures Whole(qs[j]) && PagesOf(qs[j]) !! free + PagesOf(ps[i]) {
      if j != i {
        OwnersApart(ps, free, i, j);
      }
    }
    forall j, k | 0 <= j < k < |qs| ensures PagesOf(qs[j]) !! PagesOf(qs[k]) {
    }
  }

  ghost predicate SamePages(ps: seq<Proc>, qs: seq<Proc>) {
    |qs| == |ps| && forall i :: 0 <= i < |ps| ==>
      PagesOf(qs[i]) == PagesOf(ps[i]) && Whole(qs[i]) == Whole(ps[i]) && qs[i].pid == ps[i].pid
      && (qs[i].status == Unused <==> ps[i].status == Unused)
  }

  lemma OwningSame(ps: seq<Proc>, qs: seq<Proc>, free: set<nat>, nextPid: nat)
    requires Owning(ps, free) && PidsOk(ps, nextPid) && SamePages(ps, qs)
    ensures Owning(qs, free) && PidsOk(qs, nextPid) && Owned(qs) == Owned(ps)
  {
    hide PagesOf, Whole;
    forall q | q in Owned(ps) ensures q in Owned(qs) {
      var j :| 0 <= j < |ps| && q in PagesOf(ps[j]);
      assert q in PagesOf(qs[j]);
    }
    forall q | q in Owned(qs) ensures q in Owned(ps) {
      var j :| 0 <= j < |qs| && q in PagesOf(qs[j]);
      assert q in PagesOf(ps[j]);
    }
  }

  /** The step kept the invariant, and every page is still free or owned. */
  ghost predicate Kept(s: State, t: State) {
    Inv(t) && |t.procs| == |s.procs| && Owned(t.procs) + t.free == Owned(s.procs) + s.free
  }

  lemma SameKeeps(s: State, t: State)
    requires Inv(s) && SamePages(s.procs, t.procs) && t.free == s.free && t.nextPid == s.nextPid
    ensures Kept(s, t)
  {
    OwningSame(s.procs, t.procs, s.free, s.nextPid);
  }

  lemma ForkKeeps(s: State)
    requires Inv(s) && CurrentAlive(s)
    ensures Kept(s, Fork(s).0)
  {
    hide Fork, Owning, PagesOf, Whole, Owned;
    var i, k, f, t := ForkOutcome(s);
    var r := Fork(s).0;
    if i < |s.procs| {
      if |s.free| < 3 {
        FailedSlot(s, r, i);
      } else {
        var p := r.procs[i];
        ChildPages(p, k, f, t);
        OwningTake(s.procs, s.free, i, p);
        PidsTake(s.procs, s.nextPid, i, p);
      }
    }
  }

  lemma ChildPages(p: Proc, k: nat, f: nat, t: nat)
    requires p.table == Some(t) && p.stack == Some(k) && p.frame == Some(f) && k != f && k != t && f != t && p.status != Unused
    ensures PagesOf(p) == {k, f, t} && Whole(p)
  {
  }

  lemma PidsTake(ps: seq<Proc>, nextPid: nat, i: nat, p: Proc)
    requires PidsOk(ps, nextPid) && i < |ps| && p.pid == nextPid > 0
    ensures PidsOk(ps[i := p], nextPid + 1)
  {
  }

  lemma FailedSlot(s: State, r: State, i: nat)
    requires Inv(s) && i < |s.procs| && s.procs[i].status == Unused && r.free == s.free && r.nextPid == s.nextPid + 1
    requires |r.procs| == |s.procs| && r.procs == s.procs[i := r.procs[i]]
    requires r.procs[i].status == Unused && PagesOf(r.procs[i]) == {}
    ensures Kept(s, r)
  {
    hide PagesOf;
    assert s.free - PagesOf(r.procs[i]) == s.free;
    OwningTake(s.procs, s.free, i, r.procs[i]);
  }

  lemma PidsDrop(ps: seq<Proc>, nextPid: nat, i: nat)
    requires PidsOk(ps, nextPid) && i < |ps|
    ensures PidsOk(ps[i := Emptied(ps[i])], nextPid)
  {
  }

  lemma WaitKeeps(s: State)
    requires Inv(s)
    ensures Kept(s, Wait(s).0)
  {
    hide Owning, PidsOk, PagesOf, Whole, Owned, Emptied;
    var i := FirstReapable(s.procs, s.current);
    if i < |s.procs| {
      OwningDrop(s.procs, s.free, i);
      PidsDrop(s.procs, s.nextPid, i);
    }
  }

  lemma ExitPages(s: State, code: int)
    requires CurrentAlive(s)
    ensures SamePages(s.procs, Exit(s, code).procs)
  {
    var t := Exit(s, code);
    forall i | 0 <= i < |s.procs|
      ensures PagesOf(t.procs[i]) == PagesOf(s.procs[i]) && Whole(t.procs[i]) == Whole(s.procs[i])
    {
      var p, q := t.procs[i], s.procs[i];
      assert p.table == q.table && p.stack == q.stack && p.frame == q.frame;
      assert p.status == Unused <==> q.status == Unused;
    }
  }

  lemma ExitKeeps(s: State, code: int)
    requires Inv(s) && CurrentAlive(s)
    ensures Kept(s, Exit(s, code))
  {
    hide PagesOf, Whole, Owning, PidsOk, Owned;
    ExitPages(s, code);
    SameKeeps(s, Exit(s, code));
  }

  lemma StepKeeps(s: State, step: Step)
    requires Inv(s)
    ensures Kept(s, Do(s, step))
  {
    hide Fork, Wait, Exit, Kept, Inv;
    match step
    case DoFork => if CurrentAlive(s) { ForkKeeps(s); } else { SameKeeps(s, s); }
    case DoExit(code) => if CurrentAlive(s) { ExitKeeps(s, code); } else { SameKeeps(s, s); }
    case DoWait => if CurrentAlive(s) { WaitKeeps(s); } else { SameKeeps(s, s); }
    case Schedule(_, _) => SameKeeps(s, Do(s, step));
    case SwitchTo(_) => SameKeeps(s, Do(s, step));
    case SaveFrame(_) => SameKeeps(s, Do(s, step));
  }

  // ---- what exit, wait and the others leave alone -------------------------

  /** exit marks the caller, with its code, for its parent, and leaves no sleeper behind that has to reap it. */
  lemma ExitOutcome(s: State, code: int)
    requires CurrentAlive(s)
    ensures var t, c := Exit(s, code), s.current.value;
      && t == s.(procs := t.procs) && |t.procs| == |s.procs|
      && t.procs[c] == s.procs[c].(status := Zombie, exitCode := code)
      && (forall j :: 0 <= j < |s.procs| && j != c && s.procs[j].status != Sleeping ==> t.procs[j] == s.procs[j])
      && (forall j :: 0 <= j < |s.procs| && j != c && s.procs[j].status == Sleeping ==>
            t.procs[j] == if s.procs[c].parent.Some? then s.procs[j].(status := Runnable) else s.procs[j])
  {
  }

  /** wait gives back exactly a zombie child of the caller, with its pid and code, or fails exactly when there is
      none; no other slot changes. */
  lemma WaitOutcome(s: State)
    ensures var t, w := Wait(s).0, Wait(s).1;
      if forall j :: 0 <= j < |s.procs| && s.procs[j].parent == s.current ==> s.procs[j].status != Zombie
      then w.pid == -1 && t == s
      else exists i :: 0 <= i < |s.procs| && s.procs[i].parent == s.current && s.procs[i].status == Zombie
             && w == Waited(s.procs[i].pid, s.procs[i].exitCode)
             && |t.procs| == |s.procs| && t == s.(procs := s.procs[i := t.procs[i]], free := t.free)
             && t.procs[i].status == Unused && PagesOf(t.procs[i]) == {} && t.free == s.free + PagesOf(s.procs[i])
  {
    var i := FirstReapable(s.procs, s.current);
    if i < |s.procs| {
      var t := Wait(s).0;
      assert PagesOf(t.procs[i]) == {};
      assert t.procs == s.procs[i := t.procs[i]];
    }
  }

  /** Nobody's registers change but by its own trap: not by another process's fork, exit or wait. */
  lemma RegistersAreOwn(s: State, step: Step, j: nat)
    requires Inv(s) && j < |s.procs| && s.procs[j].status != Unused && s.procs[j].frame.value in s.frames
    requires !(step.SaveFrame? && s.current == Some(j))
    ensures Inv(Do(s, step)) && j < |Do(s, step).procs|
    ensures Do(s, step).procs[j].status != Unused ==>
      && Do(s, step).procs[j].frame == s.procs[j].frame && s.procs[j].frame.value in Do(s, step).frames
      && Do(s, step).frames[s.procs[j].frame.value] == s.frames[s.procs[j].frame.value]
  {
    hide Do, Owning, PidsOk, Owned;
    StepKeeps(s, step);
    OwnFrames(s, j);
    StepFrames(s, step, j);
  }

  lemma StepFrames(s: State, step: Step, j: nat)
    requires Inv(s) && j < |s.procs| && s.procs[j].status != Unused
    requires s.procs[j].frame.Some? && s.procs[j].frame.value in s.frames && s.procs[j].frame.value !in s.free
    requires forall i :: 0 <= i < |s.procs| && i != j && s.procs[i].frame.Some? ==> s.procs[i].frame != s.procs[j].frame
    requires !(step.SaveFrame? && s.current == Some(j))
    ensures var t := Do(s, step);
      && j < |t.procs|
      && (t.procs[j].status != Unused ==>
            && t.procs[j].frame == s.procs[j].frame && s.procs[j].frame.value in t.frames
            && t.frames[s.procs[j].frame.value] == s.frames[s.procs[j].frame.value])
  {
    hide Fork, Wait, Exit, Inv, PagesOf;
    match step
    case DoFork => if CurrentAlive(s) { ForkFrames(s, j); }
    case DoExit(code) => if CurrentAlive(s) { ExitOutcome(s, code); }
    case DoWait => if CurrentAlive(s) { WaitOutcome(s); }
    case Schedule(_, _) =>
    case SwitchTo(_) =>
    case SaveFrame(_) =>
  }

  lemma OwnFrames(s: State, j: nat)
    requires Inv(s) && j < |s.procs| && s.procs[j].status != Unused
    ensures s.procs[j].frame.Some? && s.procs[j].frame.value !in s.free
    ensures forall i :: 0 <= i < |s.procs| && i != j && s.procs[i].frame.Some? ==> s.procs[i].frame != s.procs[j].frame
  {
    assert Whole(s.procs[j]) && s.procs[j].frame.value in PagesOf(s.procs[j]);
    forall i | 0 <= i < |s.procs| && i != j && s.procs[i].frame.Some? ensures s.procs[i].frame != s.procs[j].frame {
      assert s.procs[i].frame.value in PagesOf(s.procs[i]);
      assert PagesOf(s.procs[i]) !! PagesOf(s.procs[j]);
    }
    assert PagesOf(s.procs[j]) !! s.free;
  }

  lemma ForkFrames(s: State, j: nat)
    requires Inv(s) && CurrentAlive(s) && j < |s.procs| && s.procs[j].status != Unused
    requires s.procs[j].frame.Some? && s.procs[j].frame.value in s.frames && s.procs[j].frame.value !in s.free
    ensures var t := Fork(s).0;
      && j < |t.procs| && t.procs[j] == s.procs[j] && s.procs[j].frame.value in t.frames
      && t.frames[s.procs[j].frame.value] == s.frames[s.procs[j].frame.value]
  {
    hide Fork, Inv;
    var i, k, f, t := ForkOutcome(s);
  }

  // ---- whole runs ---------------------------------------------------------

  ghost function Run(s: State, steps: seq<Step>): State
    decreases |steps|
  {
    if steps == [] then s else Run(Do(s, steps[0]), steps[1..])
  }

  lemma {:induction false} RunKeeps(s: State, steps: seq<Step>)
    requires Inv(s)
    ensures Kept(s, Run(s, steps))
    decreases |steps|
  {
    if steps != [] {
      StepKeeps(s, steps[0]);
      hide Do;
      RunKeeps(Do(s, steps[0]), steps[1..]);
    }
  }

  function InUse(ps: seq<Proc>): nat {
    if ps == [] then 0 else InUse(ps[..|ps| - 1]) + if ps[|ps| - 1].status == Unused then 0 else 1
  }

  lemma {:induction false} OwnedCount(ps: seq<Proc>, free: set<nat>)
    requires Owning(ps, free)
    ensures |Owned(ps)| == 3 * InUse(ps)
  {
    if ps == [] {
      assert Owned(ps) == {};
    } else {
      var n := |ps| - 1;
      OwnedCount(ps[..n], free);
      OwnedLast(ps);
      ThreePages(ps[n]);
      assert Whole(ps[n]);
      hide PagesOf, Whole;
      forall q | q in Owned(ps[..n]) ensures q !in PagesOf(ps[n]) {
        var j :| 0 <= j < n && q in PagesOf(ps[..n][j]);
        assert PagesOf(ps[j]) !! PagesOf(ps[n]);
      }
      assert Owned(ps[..n]) !! PagesOf(ps[n]);
    }
  }

  lemma ThreePages(p: Proc)
    ensures Whole(p) ==> |PagesOf(p)| == if p.status == Unused then 0 else 3
  {
    if Whole(p) && p.status != Unused {
      assert PagesOf(p) == {p.table.value, p.stack.value, p.frame.value};
    }
  }

  lemma OwnedLast(ps: seq<Proc>)
    requires ps != []
    ensures Owned(ps) == Owned(ps[..|ps| - 1]) + PagesOf(ps[|ps| - 1])
  {
    var n := |ps| - 1;
    hide PagesOf;
    forall q | q in Owned(ps) ensures q in Owned(ps[..n]) + PagesOf(ps[n]) {
      var j :| 0 <= j < |ps| && q in PagesOf(ps[j]);
      assert j < n ==> q in PagesOf(ps[..n][j]);
    }
    forall q | q in Owned(ps[..n]) ensures q in Owned(ps) {
      var j :| 0 <= j < n && q in PagesOf(ps[..n][j]);
      assert q in PagesOf(ps[j]);
    }
  }

  /** In every run: pages are conserved, each used slot owning three that are allocated and shared with no other
      slot, so the free pages and three times the used slots always add up; live pids are distinct. */
  lemma PagesConserved(s: State, steps: seq<Step>, t: State)
    requires Inv(s) && t == Run(s, steps)
    ensures Inv(t) && Owned(t.procs) + t.free == Owned(s.procs) + s.free
    ensures |t.free| + 3 * InUse(t.procs) == |s.free| + 3 * InUse(s.procs)
  {
    RunKeeps(s, steps);
    hide Run;
    OwnedCount(s.procs, s.free);
    OwnedCount(t.procs, t.free);
    OwnedApart(s);
    OwnedApart(t);
  }

  lemma OwnedApart(s: State)
    requires Inv(s)
    ensures Owned(s.procs) !! s.free && |Owned(s.procs) + s.free| == |Owned(s.procs)| + |s.free|
  {
    hide PagesOf;
    forall q | q in Owned(s.procs) ensures q !in s.free {
    }
    assert Owned(s.procs) !! s.free;
  }

  // ---- a child's life -----------------------------------------------------

  lemma ChildExits(s: State, i: nat, c: nat, code: int)
    requires i < |s.procs| && c < |s.procs| && c != i && Alive(s.procs[i]) && Alive(s.procs[c]) && s.procs[i].parent == Some(c)
    ensures var u := Do(Do(Do(s, SwitchTo(i)), DoExit(code)), SwitchTo(c));
      && u == s.(procs := Woken(s.procs[i := s.procs[i].(exitCode := code, status := Zombie)]), current := Some(c))
      && CurrentAlive(u)
  {
    var s1 := s.(current := Some(i));
    assert Do(s, SwitchTo(i)) == s1 && CurrentAlive(s1);
  }

  lemma ParentReaps(ps: seq<Proc>, i: nat, c: nat, code: int)
    requires i < |ps| && FirstReapable(ps, Some(c)) >= |ps| && ps[i].parent == Some(c)
    ensures var qs := Woken(ps[i := ps[i].(exitCode := code, status := Zombie)]);
      FirstReapable(qs, Some(c)) == i && qs[i] == ps[i].(exitCode := code, status := Zombie)
  {
    var qs := Woken(ps[i := ps[i].(exitCode := code, status := Zombie)]);
    assert forall m :: 0 <= m < |ps| && m != i ==> !Reapable(ps[m], Some(c)) && !Reapable(qs[m], Some(c));
    assert Reapable(qs[i], Some(c));
  }

  lemma NoneReapable(ps: seq<Proc>, i: nat, p: Proc, c: Option<nat>)
    requires i < |ps| && FirstReapable(ps, c) == |ps| && !Reapable(p, c)
    ensures FirstReapable(ps[i := p], c) == |ps|
  {
    var qs := ps[i := p];
    assert forall m :: 0 <= m < |qs| ==> !Reapable(qs[m], c);
  }

  lemma ExitThenWait(s: State, i: nat, c: nat, code: int)
    requires Inv(s) && i < |s.procs| && c < |s.procs| && c != i && Alive(s.procs[i]) && Alive(s.procs[c])
    requires s.procs[i].parent == Some(c) && FirstReapable(s.procs, Some(c)) == |s.procs|
    ensures var u := Do(Do(Do(s, SwitchTo(i)), DoExit(code)), SwitchTo(c));
      var w := Wait(u);
      && w.1 == Waited(s.procs[i].pid, code) && w.0.free == s.free + PagesOf(s.procs[i]) && Do(u, DoWait) == w.0
      && Kept(s, w.0)
  {
    hide Do, PagesOf, Owning, Owned, PidsOk, Whole, Woken, FirstReapable;
    ChildExits(s, i, c, code);
    var u := Do(Do(Do(s, SwitchTo(i)), DoExit(code)), SwitchTo(c));
    ParentReaps(s.procs, i, c, code);
    SamePagesZombie(u.procs[i], s.procs[i]);
    ZombieKeeps(s, u, i, code);
    WaitKeeps(u);
    DoesWait(u);
  }

  lemma DoesWait(u: State)
    requires CurrentAlive(u)
    ensures Do(u, DoWait) == Wait(u).0
  {
  }

  lemma ZombieKeeps(s: State, u: State, i: nat, code: int)
    requires Inv(s) && i < |s.procs| && s.procs[i].status != Unused && u.free == s.free && u.nextPid == s.nextPid
    requires u.procs == Woken(s.procs[i := s.procs[i].(exitCode := code, status := Zombie)])
    ensures Kept(s, u)
  {
    ReapedInv(s, u);
  }

  lemma DoesFork(s: State)
    requires CurrentAlive(s)
    ensures Do(s, DoFork) == Fork(s).0
  {
  }

  lemma ForkedChild(s: State) returns (pages: set<nat>)
    requires Inv(s) && CurrentAlive(s) && FirstReapable(s.procs, s.current) == |s.procs|
    requires FirstUnused(s.procs) < |s.procs| && |s.free| >= 3
    ensures var i, c := FirstUnused(s.procs), s.current.value;
      var s1 := Fork(s).0;
      && Kept(s, s1) && i < |s1.procs| && c < |s1.procs| && c != i && Alive(s1.procs[i]) && Alive(s1.procs[c])
      && s1.procs[i].parent == Some(c) && FirstReapable(s1.procs, Some(c)) == |s1.procs|
      && Fork(s).1 == s1.procs[i].pid && PagesOf(s1.procs[i]) == pages <= s.free && s1.free == s.free - pages
      && Do(s, DoFork) == s1
  {
    hide Fork, Do, PagesOf, Whole, Inv, Kept, CopyFrame, FirstReapable, Reapable;
    var i, k, f, t := ForkOutcome(s);
    var p := Child(s, s.current.value, k, f, t);
    pages := {k, f, t};
    DoesFork(s);
    ForkKeeps(s);
    ChildPages(p, k, f, t);
    NotZombie(p, s.current);
    NoneReapable(s.procs, i, p, s.current);
  }

  /** A child that is forked, runs, exits and is waited for: wait returns fork's pid and the exit code, and the
      page bitmap is again what it was before fork. */
  lemma ForkExitWait(s: State, code: int)
    requires Inv(s) && CurrentAlive(s) && FirstReapable(s.procs, s.current) == |s.procs|
    requires FirstUnused(s.procs) < |s.procs| && |s.free| >= 3
    ensures var i, c := FirstUnused(s.procs), s.current.value;
      var u := Do(Do(Do(Do(s, DoFork), SwitchTo(i)), DoExit(code)), SwitchTo(c));
      var w := Wait(u);
      && w.1 == Waited(Fork(s).1, code) && Do(u, DoWait) == w.0
      && w.0.free == s.free && Inv(w.0) && Owned(w.0.procs) == Owned(s.procs)
  {
    hide Fork, Do, Wait, PagesOf, Owning, PidsOk, Owned, FirstReapable, FirstUnused;
    var pages := ForkedChild(s);
    var s1 := Fork(s).0;
    var i, c := FirstUnused(s.procs), s.current.value;
    ExitThenWait(s1, i, c, code);
    assert s1.free + pages == s.free;
    var w := Wait(Do(Do(Do(s1, SwitchTo(i)), DoExit(code)), SwitchTo(c))).0;
    OwnedApart(s);
    OwnedApart(w);
    SetMinus(Owned(s.procs), Owned(w.procs), s.free);
  }

  lemma SetMinus(a: set<nat>, b: set<nat>, c: set<nat>)
    requires a !! c && b !! c && a + c == b + c
    ensures a == b
  {
    assert forall x :: x in a ==> x in b + c;
    assert forall x :: x in b ==> x in a + c;
  }

  lemma NotZombie(p: Proc, c: Option<nat>)
    requires p.status == Runnable
    ensures !Reapable(p, c)
  {
  }

  lemma SamePagesZombie(p: Proc, q: Proc)
    requires p.table == q.table && p.stack == q.stack && p.frame == q.frame
    ensures PagesOf(p) == PagesOf(q)
  {
  }

  lemma ReapedInv(s: State, u: State)
    requires Inv(s) && |u.procs| == |s.procs| && u.free == s.free && u.nextPid == s.nextPid
    requires forall j :: 0 <= j < |s.procs| ==>
      u.procs[j] == s.procs[j].(status := u.procs[j].status, exitCode := u.procs[j].exitCode)
      && (u.procs[j].status == Unused <==> s.procs[j].status == Unused)
    ensures Kept(s, u)
  {
    forall j | 0 <= j < |s.procs| ensures PagesOf(u.procs[j]) == PagesOf(s.procs[j]) && Whole(u.procs[j]) == Whole(s.procs[j]) {
      var p, q := u.procs[j], s.procs[j];
      assert p.table == q.table && p.stack == q.stack && p.frame == q.frame;
    }
    SameKeeps(s, u);
  }
}
