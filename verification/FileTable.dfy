/** kernel/fs/file.c and pipe.c: open files, their references, and the pages of pipes. */
module FileTable {
  import opened Params

  datatype Kind = NoFile | PipeEnd | InodeFile | DeviceFile

  /** `pipe` names an entry of State.pipes. */
  datatype File = File(kind: Kind, ref: nat, readable: bool, writable: bool, pipe: nat)

  /** A pipe ever made: its page, its open sides, and how often its page was given back. */
  datatype Pipe = Pipe(page: nat, readopen: bool, writeopen: bool, freed: nat) {
    predicate Live() { readopen || writeopen }
    predicate Open(writable: bool) { if writable then writeopen else readopen }
  }

  datatype State = State(files: seq<File>, pipes: seq<Pipe>, free: set<nat>)

  /** file_alloc's scan. */
  function FirstUnused(fs: seq<File>): (i: nat)
    ensures i <= |fs|
    ensures i < |fs| ==> fs[i].ref == 0
    ensures forall j :: 0 <= j < i ==> fs[j].ref != 0
  {
    if fs == [] then 0 else if fs[0].ref == 0 then 0 else 1 + FirstUnused(fs[1..])
  }

  function WithRef(f: File, ref: nat): File { f.(ref := ref) }

  /** pipe_close. */
  function PipeClose(s: State, k: nat, writable: bool): State
    requires k < |s.pipes|
  {
    var p := s.pipes[k];
    var q := if writable then p.(writeopen := false) else p.(readopen := false);
    if q.Live() then s.(pipes := s.pipes[k := q])
    else s.(pipes := s.pipes[k := q.(freed := q.freed + 1)], free := s.free + {q.page})
  }

  /** file_close; the inode's release is not part of this table. */
  function Close(s: State, i: nat): State
    requires i < |s.files| && (s.files[i].kind == PipeEnd ==> s.files[i].pipe < |s.pipes|)
  {
    var f := s.files[i];
    if f.ref < 1 then s
    else if f.ref > 1 then s.(files := s.files[i := WithRef(f, f.ref - 1)])
    else
      var t := s.(files := s.files[i := f.(ref := 0, kind := NoFile)]);
      if f.kind == PipeEnd then PipeClose(t, f.pipe, f.writable) else t
  }

  /** file_dup. */
  function Dup(s: State, i: nat): State
    requires i < |s.files|
  {
    var f := s.files[i];
    if f.ref < 1 then s else s.(files := s.files[i := WithRef(f, f.ref + 1)])
  }

  /** file_alloc, then the caller's choice of what the file is. */
  function OpenFile(s: State, kind: Kind, readable: bool, writable: bool): State {
    var i := FirstUnused(s.files);
    if i == |s.files| then s
    else s.(files := s.files[i := s.files[i].(ref := 1, kind := kind, readable := readable, writable := writable)])
  }

  function EndFile(f: File, k: nat, writable: bool): File {
    f.(kind := PipeEnd, ref := 1, readable := !writable, writable := writable, pipe := k)
  }

  /** The failing exit of pipe_alloc: the page first, then the file that was got, as file_close leaves it. */
  function GiveBack(s: State, page: nat, i: nat): State
    requires i < |s.files|
  {
    s.(free := s.free + {page}, files := s.files[i := s.files[i].(ref := 0, kind := NoFile)])
  }

  /** pipe_alloc, `page` being the page it was given. */
  function PipeAlloc(s: State, page: nat): (r: (State, bool))
    requires page in s.free
  {
    var free := s.free - {page};
    var i := FirstUnused(s.files);
    if i == |s.files| then (s.(free := free + {page}), false)
    else
      var fs := s.files[i := WithRef(s.files[i], 1)];
      var j := FirstUnused(fs);
      if j == |fs| then (GiveBack(State(fs, s.pipes, free), page, i), false)
      else
        var k := |s.pipes|;
        (State(fs[i := EndFile(fs[i], k, false)][j := EndFile(fs[j], k, true)], s.pipes + [Pipe(page, true, true, 0)], free), true)
  }

  /** Other kernel code takes and gives back pages, but not the pages of open pipes. */
  datatype Step = MakePipe(page: nat) | MakeFile(kind: Kind, readable: bool, writable: bool) | DupFile(i: nat)
                | CloseFile(i: nat) | TakePage(page: nat) | GivePage(page: nat)

  predicate InUse(s: State, page: nat) { exists k :: 0 <= k < |s.pipes| && s.pipes[k].Live() && s.pipes[k].page == page }

  predicate Linked(s: State) {
    forall i :: 0 <= i < |s.files| && s.files[i].kind == PipeEnd ==> s.files[i].pipe < |s.pipes|
  }

  function Do(s: State, step: Step): (t: State)
    requires Linked(s)
    ensures Linked(t)
  {
    match step
    case MakePipe(page) => if page in s.free then PipeAlloc(s, page).0 else s
    case MakeFile(kind, r, w) => if kind == PipeEnd || kind == NoFile then s else OpenFile(s, kind, r, w)
    case DupFile(i) => if i < |s.files| then Dup(s, i) else s
    case CloseFile(i) => if i < |s.files| then Close(s, i) else s
    case TakePage(page) => s.(free := s.free - {page})
    case GivePage(page) => if InUse(s, page) then s else s.(free := s.free + {page})
  }

  // ---- the invariant ------------------------------------------------------

  predicate Side(f: File, k: nat, writable: bool) {
    f.ref > 0 && f.kind == PipeEnd && f.pipe == k && f.writable == writable
  }

  predicate HasSide(fs: seq<File>, k: nat, writable: bool) { exists i :: 0 <= i < |fs| && Side(fs[i], k, writable) }

  ghost predicate FilesOk(fs: seq<File>) {
    && (forall i :: 0 <= i < |fs| && fs[i].ref == 0 ==> fs[i].kind == NoFile)
    && (forall i, j, k: nat, w :: 0 <= i < j < |fs| && Side(fs[i], k, w) ==> !Side(fs[j], k, w))
  }

  /** A side is open exactly while a file holds it; the page was given back once if no side is open, else never. */
  ghost predicate PipeOk(fs: seq<File>, p: Pipe, k: nat) {
    && (forall w :: p.Open(w) <==> HasSide(fs, k, w))
    && p.freed == if p.Live() then 0 else 1
  }

  ghost predicate PagesOk(pipes: seq<Pipe>, free: set<nat>) {
    && (forall k :: 0 <= k < |pipes| && pipes[k].Live() ==> pipes[k].page !in free)
    && (forall k, l :: 0 <= k < l < |pipes| && pipes[k].Live() && pipes[l].Live() ==> pipes[k].page != pipes[l].page)
  }

  ghost predicate Inv(s: State) {
    && Linked(s) && FilesOk(s.files) && PagesOk(s.pipes, s.free)
    && forall k: nat :: k < |s.pipes| ==> PipeOk(s.files, s.pipes[k], k)
  }
}
