/** kernel/proc/process.c and control.c: the process table and the pages its slots own. */
module ProcTable {
  import opened Wrappers
  import PhysMem

  datatype Status = Unused | Used | Sleeping | Runnable | Running | Zombie

  /** A slot of proc_table; `parent` is a slot, the last three are page numbers. */
  datatype Proc = Proc(status: Status, pid: int, parent: Option<nat>, sz: nat, exitCode: int,
                       table: Option<nat>, stack: Option<nat>, frame: Option<nat>)

  const NREGS: nat := 36
  /** Place of a0 among the 36 registers of a trapframe. */
  const A0: nat := 14

  /** `frames` is the content of trapframe pages. */
  datatype State = State(procs: seq<Proc>, nextPid: nat, current: Option<nat>, free: set<nat>, frames: map<nat, seq<nat>>)

  lemma {:induction false} LowestExists(free: set<nat>) returns (i: nat)
    requires free != {}
    ensures PhysMem.IsLowest(i, free)
    decreases |free|
  {
    var x :| x in free;
    if free == {x} {
      i := x;
    } else {
      var rest := free - {x};
      assert free == rest + {x};
      var y := LowestExists(rest);
      i := if x < y then x else y;
      assert forall j :: j in free ==> j == x || j in rest;
    }
  }

  lemma LowestSome(free: set<nat>)
    requires free != {}
    ensures exists i :: PhysMem.IsLowest(i, free)
  {
    var i := LowestExists(free);
  }

  /** The page physmem_alloc_page hands out. */
  ghost function Lowest(free: set<nat>): (i: nat)
    requires free != {}
    ensures PhysMem.IsLowest(i, free)
  {
    LowestSome(free);
    var i :| PhysMem.IsLowest(i, free);
    i
  }

  // ---- process.c ----------------------------------------------------------

  function FirstUnused(ps: seq<Proc>): (i: nat)
    ensures i <= |ps|
    ensures i < |ps| ==> ps[i].status == Unused
    ensures forall j :: 0 <= j < i ==> ps[j].status != Unused
  {
    if ps == [] then 0 else if ps[0].status == Unused then 0 else 1 + FirstUnused(ps[1..])
  }

  /** alloc_proc in slot `i`. */
  function Claimed(s: State, i: nat): State
    requires i < |s.procs|
  {
    s.(procs := s.procs[i := Proc(Used, s.nextPid, None, 0, 0, None, None, None)], nextPid := s.nextPid + 1)
  }

  function PageSet(o: Option<nat>): set<nat> { if o.Some? then {o.value} else {} }

  function PagesOf(p: Proc): set<nat> { PageSet(p.table) + PageSet(p.stack) + PageSet(p.frame) }

  function Emptied(p: Proc): Proc { p.(status := Unused, table := None, stack := None, frame := None) }

  /** free_proc. */
  function FreeProc(s: State, i: nat): State
    requires i < |s.procs|
  {
    s.(procs := s.procs[i := Emptied(s.procs[i])], free := s.free + PagesOf(s.procs[i]))
  }

  // ---- control.c ----------------------------------------------------------

  function SetProc(s: State, i: nat, p: Proc): State
    requires i < |s.procs|
  {
    s.(procs := s.procs[i := p])
  }

  /** copy_trapframe with a0 cleared, when the parent has a trapframe. */
  function CopyFrame(frames: map<nat, seq<nat>>, parent: Option<nat>, child: nat): map<nat, seq<nat>> {
    if parent.None? || parent.value !in frames || |frames[parent.value]| != NREGS then frames
    else frames[child := frames[parent.value][A0 := 0]]
  }

  /** The end of fork: the root table. */
  ghost function GiveTable(s: State, i: nat): (State, int)
    requires i < |s.procs|
  {
    if s.free == {} then (FreeProc(s, i), -1)
    else
      var t := Lowest(s.free);
      (SetProc(s, i, s.procs[i].(table := Some(t), status := Runnable)).(free := s.free - {t}), s.procs[i].pid)
  }

  /** From the trapframe on. */
  ghost function GiveFrame(s: State, c: nat, i: nat): (State, int)
    requires i < |s.procs| && c < |s.procs|
  {
    if s.free == {} then (FreeProc(s, i), -1)
    else
      var f := Lowest(s.free);
      GiveTable(SetProc(s, i, s.procs[i].(frame := Some(f)))
        .(free := s.free - {f}, frames := CopyFrame(s.frames, s.procs[c].frame, f)), i)
  }

  /** fork once slot `i` is claimed; whatever was got is given back on failure. */
  ghost function Populate(s: State, c: nat, i: nat): (State, int)
    requires i < |s.procs| && c < |s.procs|
  {
    if s.free == {} then (FreeProc(s, i), -1)
    else
      var k := Lowest(s.free);
      GiveFrame(SetProc(s, i, s.procs[i].(stack := Some(k))).(free := s.free - {k}), c, i)
  }

  ghost function Fork(s: State): (r: (State, int))
    requires s.current.Some? ==> s.current.value < |s.procs|
  {
    if s.current.None? then (s, -1)
    else
      var c := s.current.value;
      var i := FirstUnused(s.procs);
      if i == |s.procs| then (s, -1)
      else
        var s1 := Claimed(s, i);
        Populate(SetProc(s1, i, s1.procs[i].(parent := Some(c), sz := s1.procs[c].sz)), c, i)
  }

  /** wakeup ignores its channel. */
  function Woken(ps: seq<Proc>): (r: seq<Proc>)
    ensures |r| == |ps|
    ensures forall i :: 0 <= i < |ps| ==> r[i] == if ps[i].status == Sleeping then ps[i].(status := Runnable) else ps[i]
  {
    seq(|ps|, i requires 0 <= i < |ps| => if ps[i].status == Sleeping then ps[i].(status := Runnable) else ps[i])
  }

  /** exit up to its endless loop. */
  function Exit(s: State, status: int): State
    requires s.current.Some? ==> s.current.value < |s.procs|
  {
    if s.current.None? then s
    else
      var p := s.procs[s.current.value];
      var s1 := SetProc(s, s.current.value, p.(exitCode := status, status := Zombie));
      if p.parent.Some? then s1.(procs := Woken(s1.procs)) else s1
  }

  predicate Reapable(p: Proc, c: Option<nat>) { p.parent == c && p.status == Zombie }

  function FirstReapable(ps: seq<Proc>, c: Option<nat>): (i: nat)
    ensures i <= |ps|
    ensures i < |ps| ==> Reapable(ps[i], c)
    ensures forall j :: 0 <= j < i ==> !Reapable(ps[j], c)
  {
    if ps == [] then 0 else if Reapable(ps[0], c) then 0 else 1 + FirstReapable(ps[1..], c)
  }

  datatype Waited = Waited(pid: int, status: int)

  /** wait: the first zombie child's pid and exit code, or -1 (the status is then not written). */
  function Wait(s: State): (State, Waited) {
    var i := FirstReapable(s.procs, s.current);
    if i == |s.procs| then (s, Waited(-1, 0))
    else (FreeProc(s, i), Waited(s.procs[i].pid, s.procs[i].exitCode))
  }

  predicate Alive(p: Proc) { p.status == Sleeping || p.status == Runnable || p.status == Running }

  predicate CurrentAlive(s: State) { s.current.Some? && s.current.value < |s.procs| && Alive(s.procs[s.current.value]) }

  /** Only a live current process makes calls. The scheduler and sleep/wakeup move live processes between their
      states and choose the current one; a trap saves its registers. */
  datatype Step = DoFork | DoExit(code: int) | DoWait | Schedule(i: nat, status: Status) | SwitchTo(i: nat)
                | SaveFrame(regs: seq<nat>)

  ghost function Do(s: State, step: Step): State {
    match step
    case DoFork => if CurrentAlive(s) then Fork(s).0 else s
    case DoExit(code) => if CurrentAlive(s) then Exit(s, code) else s
    case DoWait => if CurrentAlive(s) then Wait(s).0 else s
    case Schedule(i, status) =>
      if i < |s.procs| && Alive(s.procs[i]) && Alive(s.procs[i].(status := status))
      then SetProc(s, i, s.procs[i].(status := status)) else s
    case SwitchTo(i) => if i < |s.procs| && Alive(s.procs[i]) then s.(current := Some(i)) else s
    case SaveFrame(regs) =>
      if CurrentAlive(s) && s.procs[s.current.value].frame.Some? && |regs| == NREGS
      then s.(frames := s.frames[s.procs[s.current.value].frame.value := regs]) else s
  }

  // ---- the invariant ------------------------------------------------------

  /** A free slot owns nothing; any other owns exactly three pages. */
  predicate Whole(p: Proc) {
    if p.status == Unused then PagesOf(p) == {}
    else p.table.Some? && p.stack.Some? && p.frame.Some?
         && p.table != p.stack && p.table != p.frame && p.stack != p.frame
  }

  ghost predicate Owning(ps: seq<Proc>, free: set<nat>) {
    && (forall i :: 0 <= i < |ps| ==> Whole(ps[i]) && PagesOf(ps[i]) !! free)
    && (forall i, j :: 0 <= i < j < |ps| ==> PagesOf(ps[i]) !! PagesOf(ps[j]))
  }

  ghost predicate PidsOk(ps: seq<Proc>, nextPid: nat) {
    && (forall i :: 0 <= i < |ps| && ps[i].status != Unused ==> 0 < ps[i].pid < nextPid)
    && (forall i, j :: 0 <= i < j < |ps| && ps[i].status != Unused && ps[j].status != Unused ==> ps[i].pid != ps[j].pid)
  }

  ghost predicate Inv(s: State) {
    Owning(s.procs, s.free) && PidsOk(s.procs, s.nextPid) && s.nextPid > 0
  }

  ghost function Owned(ps: seq<Proc>): (o: set<nat>)
    ensures forall q: nat :: q in o <==> exists i :: 0 <= i < |ps| && q in PagesOf(ps[i])
  {
    set i, q | 0 <= i < |ps| && q in PagesOf(ps[i]) :: q
  }
}
