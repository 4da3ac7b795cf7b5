/** kernel/fs/pipe.c: the ring buffer and its 32-bit counters, under any interleaving of readers and writers. */
module Pipe {
  import opened Params
  import opened Bytes

  const PIPESIZE: nat := 512

  /** struct pipe. `taken` and `sent` are the histories: bytes read so far, and bytes written with their writer. */
  datatype State = State(data: seq<Byte>, nread: nat, nwrite: nat, readopen: bool, writeopen: bool,
                         taken: seq<Byte>, sent: seq<Tagged>)
  datatype Tagged = Tagged(writer: nat, byte: Byte)

  /** The full test of pipe_write, in 32-bit arithmetic. */
  predicate Full(s: State) { s.nwrite == (s.nread + PIPESIZE) % UINT32 }

  /** The loop test of pipe_read. */
  predicate Readable(s: State) { s.nread < s.nwrite }

  function PutByte(s: State, writer: nat, b: Byte): State
    requires |s.data| == PIPESIZE
  {
    s.(data := s.data[s.nwrite % PIPESIZE := b], nwrite := (s.nwrite + 1) % UINT32, sent := s.sent + [Tagged(writer, b)])
  }

  function TakeByte(s: State): State
    requires |s.data| == PIPESIZE
  {
    s.(nread := (s.nread + 1) % UINT32, taken := s.taken + [s.data[s.nread % PIPESIZE]])
  }

  datatype WriteEnd = Done | Asleep | Broken

  /** pipe_write from byte `i` until it returns or sleeps: one region under the lock. */
  function WriteRegion(s: State, writer: nat, src: seq<Byte>, i: nat): (r: (State, nat, WriteEnd))
    requires |s.data| == PIPESIZE && i <= |src|
    ensures i <= r.1 <= |src| && |r.0.data| == PIPESIZE
    decreases |src| - i
  {
    if i == |src| then (s, i, Done)
    else if Full(s) then (s, i, if s.readopen then Asleep else Broken)
    else WriteRegion(PutByte(s, writer, src[i]), writer, src, i + 1)
  }

  /** The copying loop of pipe_read: at most `n` bytes. */
  function ReadRegion(s: State, n: nat): (r: State)
    requires |s.data| == PIPESIZE
    ensures |r.data| == PIPESIZE
    decreases n
  {
    if n == 0 || !Readable(s) then s else ReadRegion(TakeByte(s), n - 1)
  }

  // ---- the invariant ------------------------------------------------------

  function Bare(ts: seq<Tagged>): (s: seq<Byte>)
    ensures |s| == |ts|
  {
    seq(|ts|, i requires 0 <= i < |ts| => ts[i].byte)
  }

  /** First in, first out: what was read, followed by what the ring holds, is what was written. The counters
      are the history lengths modulo 2^32, and no more than 2^32 - 1 bytes are ever read. */
  ghost predicate Fifo(s: State) {
    && |s.data| == PIPESIZE
    && |s.taken| <= |s.sent| <= |s.taken| + PIPESIZE
    && s.nread == |s.taken| && |s.taken| < UINT32
    && s.nwrite == |s.sent| % UINT32
    && (forall k :: 0 <= k < |s.taken| ==> s.taken[k] == s.sent[k].byte)
    && (forall k :: |s.taken| <= k < |s.sent| ==> s.data[k % PIPESIZE] == s.sent[k].byte)
  }

  lemma RingIndex(k: nat)
    ensures (k % UINT32) % PIPESIZE == k % PIPESIZE
  {
    assert UINT32 == PIPESIZE * 0x80_0000;
    var q := k / UINT32;
    assert k == PIPESIZE * (0x80_0000 * q) + k % UINT32;
    ModPlus(k % UINT32, 0x80_0000 * q);
  }

  lemma ModPlus(r: nat, m: nat)
    ensures (PIPESIZE * m + r) % PIPESIZE == r % PIPESIZE
    decreases m
  {
    if m > 0 {
      ModPlus(r, m - 1);
      assert PIPESIZE * m + r == PIPESIZE * (m - 1) + r + PIPESIZE;
    }
  }

  /** The full test is right across any number of wrap-arounds. */
  lemma FullIsExact(s: State)
    requires Fifo(s)
    ensures Full(s) <==> |s.sent| == |s.taken| + PIPESIZE
  {
  }

  /** The loop test of pipe_read is right exactly until 2^32 bytes have been written. */
  lemma ReadableIsExact(s: State)
    requires Fifo(s)
    ensures |s.sent| < UINT32 ==> (Readable(s) <==> |s.taken| < |s.sent|)
    ensures |s.sent| >= UINT32 ==> !Readable(s) && |s.taken| < |s.sent|
  {
  }

  lemma CountNext(n: nat)
    ensures (n % UINT32 + 1) % UINT32 == (n + 1) % UINT32
  {
  }

  /** The slot written holds no byte still waiting. */
  lemma SlotIsFree(taken: nat, n: nat, k: nat)
    requires taken <= k < n < taken + PIPESIZE
    ensures k % PIPESIZE != n % PIPESIZE
  {
    if k % PIPESIZE == n % PIPESIZE {
      DistanceMultiple(k, n);
    }
  }

  lemma PutKeeps(s: State, writer: nat, b: Byte)
    requires Fifo(s) && !Full(s)
    ensures Fifo(PutByte(s, writer, b))
  {
    FullIsExact(s);
    var n := |s.sent|;
    RingIndex(n);
    CountNext(n);
    hide PIPESIZE, UINT32;
    forall k | |s.taken| <= k < n ensures k % PIPESIZE != n % PIPESIZE {
      SlotIsFree(|s.taken|, n, k);
    }
  }

  lemma DistanceMultiple(k: nat, n: nat)
    requires k < n && k % PIPESIZE == n % PIPESIZE
    ensures n >= k + PIPESIZE
  {
  }

  lemma TakeKeeps(s: State)
    requires Fifo(s) && Readable(s)
    ensures Fifo(TakeByte(s)) && TakeByte(s).taken == s.taken + [s.sent[|s.taken|].byte]
  {
    ReadableIsExact(s);
  }

  lemma {:induction false} WriteKeeps(s: State, writer: nat, src: seq<Byte>, i: nat)
    requires Fifo(s) && i <= |src|
    ensures var r := WriteRegion(s, writer, src, i);
      && Fifo(r.0) && r.0.taken == s.taken
      && r.0.sent == s.sent + seq(r.1 - i, j requires 0 <= j < r.1 - i => Tagged(writer, src[i + j]))
      && (r.2 == Done <==> r.1 == |src|)
      && (r.2 != Done ==> |r.0.sent| == |r.0.taken| + PIPESIZE && (r.2 == Broken <==> !s.readopen))
    decreases |src| - i
  {
    if i < |src| && !Full(s) {
      PutKeeps(s, writer, src[i]);
      WriteKeeps(PutByte(s, writer, src[i]), writer, src, i + 1);
    } else if i < |src| {
      FullIsExact(s);
    }
  }

  function Min(a: nat, b: nat): nat { if a < b then a else b }

  /** A read returns the oldest bytes not read yet, as many as asked for and present; once 2^32 bytes have
      been written it returns none. */
  lemma {:induction false} ReadTakesOldest(s: State, n: nat)
    requires Fifo(s)
    ensures var r := ReadRegion(s, n);
      && Fifo(r) && r.sent == s.sent && r.readopen == s.readopen && r.writeopen == s.writeopen
      && r.taken == (if |s.sent| < UINT32 then Bare(s.sent[..Min(|s.sent|, |s.taken| + n)]) else s.taken)
    decreases n
  {
    ReadableIsExact(s);
    if n == 0 || !Readable(s) {
      assert |s.sent| < UINT32 ==> s.taken == Bare(s.sent[..|s.taken|]);
    } else {
      TakeKeeps(s);
      ReadTakesOldest(TakeByte(s), n - 1);
    }
  }

  // ---- interleavings ------------------------------------------------------

  datatype Call = Call(src: seq<Byte>, i: nat)

  /** The pipe, and the pipe_write calls that have started and not returned, by writer. */
  datatype World = World(pipe: State, calls: map<nat, Call>, given: map<nat, seq<Byte>>)

  datatype Step = StartWrite(w: nat, src: seq<Byte>) | Continue(w: nat) | Read(n: nat) | Close(writable: bool)

  function Given(x: World, w: nat): seq<Byte> { if w in x.given then x.given[w] else [] }

  /** The call goes on sleeping from byte `k`, or is over; a broken one drops the rest of its bytes. */
  function AfterRegion(x: World, w: nat, c: Call, pipe: State, k: nat, end: WriteEnd): World
    requires k <= |c.src|
  {
    match end
    case Done => World(pipe, x.calls - {w}, x.given)
    case Asleep => World(pipe, x.calls[w := Call(c.src, k)], x.given)
    case Broken =>
      var owed := |c.src| - k;
      World(pipe, x.calls - {w}, x.given[w := Given(x, w)[..|Given(x, w)| - Min(owed, |Given(x, w)|)]])
  }

  predicate Shaped(x: World) {
    |x.pipe.data| == PIPESIZE && forall w :: w in x.calls ==> x.calls[w].i <= |x.calls[w].src|
  }

  /** `Continue` covers every return from sleep, wanted or not. */
  function DoStep(x: World, step: Step): (y: World)
    requires Shaped(x)
    ensures Shaped(y)
  {
    match step
    case StartWrite(w, src) =>
      if w in x.calls then x
      else World(x.pipe, x.calls[w := Call(src, 0)], x.given[w := Given(x, w) + src])
    case Continue(w) =>
      if w !in x.calls then x
      else
        var c := x.calls[w];
        var r := WriteRegion(x.pipe, w, c.src, c.i);
        AfterRegion(x, w, c, r.0, r.1, r.2)
    case Read(n) => x.(pipe := ReadRegion(x.pipe, n))
    case Close(writable) =>
      x.(pipe := if writable then x.pipe.(writeopen := false) else x.pipe.(readopen := false))
  }

  /** The bytes of writer `w` in the history, in order. */
  function BytesOf(w: nat, ts: seq<Tagged>): seq<Byte> {
    if ts == [] then []
    else
      var n := |ts| - 1;
      BytesOf(w, ts[..n]) + if ts[n].writer == w then [ts[n].byte] else []
  }

  function Pending(x: World, w: nat): seq<Byte>
    requires w in x.calls ==> x.calls[w].i <= |x.calls[w].src|
  {
    if w in x.calls then x.calls[w].src[x.calls[w].i..] else []
  }

  /** Writer `w`: what arrived, then what its open call still owes, is what it was asked to write. */
  ghost predicate Balanced(x: World, w: nat) {
    (w in x.calls ==> x.calls[w].i <= |x.calls[w].src|) && BytesOf(w, x.pipe.sent) + Pending(x, w) == Given(x, w)
  }

  ghost predicate WorldOk(x: World) {
    Fifo(x.pipe) && Shaped(x) && forall w: nat :: Balanced(x, w)
  }

  lemma {:induction false} BytesOfAppend(w: nat, a: seq<Tagged>, b: seq<Tagged>)
    ensures BytesOf(w, a + b) == BytesOf(w, a) + BytesOf(w, b)
  {
    if b == [] {
      assert a + b == a;
    } else {
      var n := |b| - 1;
      BytesOfAppend(w, a, b[..n]);
      assert (a + b)[..|a| + n] == a + b[..n];
    }
  }

  function Copied(w: nat, src: seq<Byte>, i: nat, k: nat): seq<Tagged>
    requires i <= k <= |src|
  {
    seq(k - i, j requires 0 <= j < k - i => Tagged(w, src[i + j]))
  }

  lemma CopiedNext(w: nat, src: seq<Byte>, i: nat, k: nat)
    requires i < k <= |src|
    ensures Copied(w, src, i, k) == Copied(w, src, i, k - 1) + [Tagged(w, src[k - 1])]
  {
  }

  lemma BytesOfNext(v: nat, ts: seq<Tagged>, t: Tagged)
    ensures BytesOf(v, ts + [t]) == BytesOf(v, ts) + if t.writer == v then [t.byte] else []
  {
    assert (ts + [t])[..|ts|] == ts;
  }

  lemma SliceNext(src: seq<Byte>, i: nat, k: nat)
    requires i < k <= |src|
    ensures src[i..k] == src[i..k - 1] + [src[k - 1]]
  {
  }

  lemma NoneCopied(w: nat, src: seq<Byte>, i: nat)
    requires i <= |src|
    ensures Copied(w, src, i, i) == [] && src[i..i] == []
  {
  }

  lemma {:induction false} BytesOfOne(w: nat, v: nat, src: seq<Byte>, i: nat, k: nat)
    requires i <= k <= |src|
    ensures BytesOf(v, Copied(w, src, i, k)) == if v == w then src[i..k] else []
    decreases k
  {
    if i == k {
      NoneCopied(w, src, i);
      hide Copied;
    } else {
      hide BytesOf, Copied;
      var before := Copied(w, src, i, k - 1);
      CopiedNext(w, src, i, k);
      SliceNext(src, i, k);
      BytesOfNext(v, before, Tagged(w, src[k - 1]));
      BytesOfOne(w, v, src, i, k - 1);
    }
  }

  /** Bytes `i..k` of the call under way have gone into the ring: the writer's account still balances. */
  lemma Balance(before: seq<Byte>, src: seq<Byte>, i: nat, k: nat, given: seq<Byte>)
    requires i <= k <= |src| && before + src[i..] == given
    ensures before + src[i..k] + src[k..] == given
    ensures |src| - k <= |given| && before + src[i..k] == given[..|given| - (|src| - k)]
  {
    assert src[i..] == src[i..k] + src[k..];
    assert given == (before + src[i..k]) + src[k..];
  }

  /** Writer `v` after writer `w` moved its bytes `i..k` into the ring. */
  lemma SentBalance(sent: seq<Tagged>, w: nat, src: seq<Byte>, i: nat, k: nat, v: nat)
    requires i <= k <= |src|
    ensures BytesOf(v, sent + Copied(w, src, i, k)) == BytesOf(v, sent) + if v == w then src[i..k] else []
  {
    BytesOfAppend(v, sent, Copied(w, src, i, k));
    BytesOfOne(w, v, src, i, k);
  }

  lemma OtherBalance(x: World, w: nat, v: nat, c: Call, pipe: State, k: nat, end: WriteEnd)
    requires Balanced(x, v) && v != w && k <= |c.src| && BytesOf(v, pipe.sent) == BytesOf(v, x.pipe.sent)
    ensures Balanced(AfterRegion(x, w, c, pipe, k, end), v)
  {
    hide BytesOf;
  }

  lemma OwnBalance(x: World, w: nat, c: Call, pipe: State, k: nat, end: WriteEnd)
    requires Balanced(x, w) && w in x.calls && c == x.calls[w] && c.i <= k <= |c.src|
    requires BytesOf(w, pipe.sent) == BytesOf(w, x.pipe.sent) + c.src[c.i..k] && (end == Done ==> k == |c.src|)
    ensures Balanced(AfterRegion(x, w, c, pipe, k, end), w)
  {
    Balance(BytesOf(w, x.pipe.sent), c.src, c.i, k, Given(x, w));
    hide BytesOf;
  }

  lemma ContinueBalance(x: World, w: nat, v: nat, c: Call, pipe: State, k: nat, end: WriteEnd)
    requires Balanced(x, v) && Balanced(x, w) && w in x.calls && c == x.calls[w] && c.i <= k <= |c.src|
    requires pipe.sent == x.pipe.sent + Copied(w, c.src, c.i, k) && (end == Done ==> k == |c.src|)
    ensures Balanced(AfterRegion(x, w, c, pipe, k, end), v)
  {
    hide BytesOf, Copied, AfterRegion, Balanced;
    SentBalance(x.pipe.sent, w, c.src, c.i, k, v);
    if v == w {
      OwnBalance(x, w, c, pipe, k, end);
    } else {
      OtherBalance(x, w, v, c, pipe, k, end);
    }
  }

  lemma ContinueKeeps(x: World, w: nat)
    requires WorldOk(x) && w in x.calls
    ensures WorldOk(DoStep(x, Continue(w)))
  {
    var c := x.calls[w];
    assert Balanced(x, w);
    var r := WriteRegion(x.pipe, w, c.src, c.i);
    WriteKeeps(x.pipe, w, c.src, c.i);
    assert r.0.sent == x.pipe.sent + Copied(w, c.src, c.i, r.1);
    hide WriteRegion, Fifo, Full, BytesOf, Copied;
    var x' := AfterRegion(x, w, c, r.0, r.1, r.2);
    forall v: nat ensures Balanced(x', v) {
      assert Balanced(x, v);
      ContinueBalance(x, w, v, c, r.0, r.1, r.2);
    }
  }

  /** The accounts depend on what was sent, the open calls and the sums given alone. */
  lemma SameAccounts(x: World, y: World)
    requires WorldOk(x) && Fifo(y.pipe) && Shaped(y)
    requires y.pipe.sent == x.pipe.sent && y.calls == x.calls && y.given == x.given
    ensures WorldOk(y)
  {
    hide BytesOf, Fifo;
    forall v: nat ensures Balanced(y, v) {
      assert Balanced(x, v);
    }
  }

  lemma StartBalance(x: World, w: nat, src: seq<Byte>, v: nat)
    requires Shaped(x) && Balanced(x, v)
    ensures Balanced(DoStep(x, StartWrite(w, src)), v)
  {
    hide BytesOf;
    if v == w && w !in x.calls {
      assert src[0..] == src;
    }
  }

  lemma StartKeeps(x: World, w: nat, src: seq<Byte>)
    requires WorldOk(x)
    ensures WorldOk(DoStep(x, StartWrite(w, src)))
  {
    hide BytesOf, Fifo, Balanced;
    var y := DoStep(x, StartWrite(w, src));
    forall v: nat ensures Balanced(y, v) {
      StartBalance(x, w, src, v);
    }
  }

  lemma StepKeeps(x: World, step: Step)
    requires WorldOk(x)
    ensures WorldOk(DoStep(x, step))
  {
    match step
    case StartWrite(w, src) => StartKeeps(x, w, src);
    case Continue(w) => if w in x.calls { ContinueKeeps(x, w); }
    case Read(n) =>
      ReadTakesOldest(x.pipe, n);
      SameAccounts(x, DoStep(x, step));
    case Close(_) => SameAccounts(x, DoStep(x, step));
  }

  // ---- whole runs ---------------------------------------------------------

  /** A pipe as pipe_alloc leaves it; the page's old content is in the ring. */
  function Opened(data: seq<Byte>): World
    requires |data| == PIPESIZE
  {
    World(State(data, 0, 0, true, true, [], []), map[], map[])
  }

  function Run(x: World, steps: seq<Step>): (y: World)
    requires Shaped(x)
    ensures Shaped(y)
    decreases |steps|
  {
    if steps == [] then x else Run(DoStep(x, steps[0]), steps[1..])
  }

  lemma {:induction false} RunKeeps(x: World, steps: seq<Step>)
    requires WorldOk(x)
    ensures WorldOk(Run(x, steps))
    decreases |steps|
  {
    if steps != [] {
      StepKeeps(x, steps[0]);
      RunKeeps(DoStep(x, steps[0]), steps[1..]);
    }
  }

  /** An end is closed by its own close and by nothing else. */
  lemma {:induction false} OpenEnds(x: World, steps: seq<Step>)
    requires Shaped(x)
    ensures Run(x, steps).pipe.readopen <==> x.pipe.readopen && Close(false) !in steps
    ensures Run(x, steps).pipe.writeopen <==> x.pipe.writeopen && Close(true) !in steps
    decreases |steps|
  {
    if steps != [] {
      StepEnds(x, steps[0]);
      hide DoStep;
      OpenEnds(DoStep(x, steps[0]), steps[1..]);
    }
  }

  lemma StepEnds(x: World, step: Step)
    requires Shaped(x)
    ensures DoStep(x, step).pipe.readopen == (x.pipe.readopen && step != Close(false))
    ensures DoStep(x, step).pipe.writeopen == (x.pipe.writeopen && step != Close(true))
  {
    if step.Continue? && step.w in x.calls {
      RegionEnds(x.pipe, step.w, x.calls[step.w].src, x.calls[step.w].i);
    } else if step.Read? {
      ReadKeepsEnds(x.pipe, step.n);
    }
    hide WriteRegion, ReadRegion;
  }

  /** The bytes in the ring, oldest first. */
  function Ring(s: State): seq<Byte>
    requires |s.data| == PIPESIZE && |s.taken| <= |s.sent|
  {
    seq(|s.sent| - |s.taken|, j requires 0 <= j < |s.sent| - |s.taken| => s.data[(|s.taken| + j) % PIPESIZE])
  }

  /** FIFO over all interleavings: bytes read, then bytes in the ring, are the bytes written; the occupancy is
      within the ring; and each writer's bytes are there in its own order, up to what its open call still owes. */
  lemma EveryRunIsFifo(data: seq<Byte>, steps: seq<Step>, y: World)
    requires |data| == PIPESIZE && y == Run(Opened(data), steps)
    ensures |y.pipe.data| == PIPESIZE && |y.pipe.taken| <= |y.pipe.sent| <= |y.pipe.taken| + PIPESIZE
    ensures Bare(y.pipe.sent) == y.pipe.taken + Ring(y.pipe)
    ensures forall w: nat :: Balanced(y, w)
  {
    OpenedOk(data);
    RunKeeps(Opened(data), steps);
    hide Run, Balanced;
    RingHolds(y.pipe);
  }

  lemma OpenedOk(data: seq<Byte>)
    requires |data| == PIPESIZE
    ensures WorldOk(Opened(data))
  {
  }

  lemma RingHolds(s: State)
    requires Fifo(s)
    ensures Bare(s.sent) == s.taken + Ring(s)
  {
  }

  // ---- what becomes of a call ---------------------------------------------

  /** The bytes writer `w` is asked to write by the calls that the steps start. */
  function Asked(x: World, steps: seq<Step>, w: nat): seq<Byte>
    requires Shaped(x)
    decreases |steps|
  {
    if steps == [] then []
    else
      (if steps[0].StartWrite? && steps[0].w == w && w !in x.calls then steps[0].src else [])
      + Asked(DoStep(x, steps[0]), steps[1..], w)
  }

  lemma {:induction false} RegionEnds(s: State, writer: nat, src: seq<Byte>, i: nat)
    requires |s.data| == PIPESIZE && i <= |src|
    ensures WriteRegion(s, writer, src, i).0.readopen == s.readopen && WriteRegion(s, writer, src, i).0.writeopen == s.writeopen
    ensures WriteRegion(s, writer, src, i).2 == Broken ==> !s.readopen
    decreases |src| - i
  {
    if i < |src| && !Full(s) {
      RegionEnds(PutByte(s, writer, src[i]), writer, src, i + 1);
    }
  }

  lemma {:induction false} ReadKeepsEnds(s: State, n: nat)
    requires |s.data| == PIPESIZE
    ensures ReadRegion(s, n).readopen == s.readopen && ReadRegion(s, n).writeopen == s.writeopen
    decreases n
  {
    if n > 0 && Readable(s) {
      ReadKeepsEnds(TakeByte(s), n - 1);
    }
  }

  lemma StepGiven(x: World, step: Step, w: nat)
    requires Shaped(x) && DoStep(x, step).pipe.readopen
    ensures x.pipe.readopen
    ensures Given(DoStep(x, step), w) ==
      Given(x, w) + if step.StartWrite? && step.w == w && w !in x.calls then step.src else []
  {
    match step
    case StartWrite(_, _) =>
    case Continue(v) =>
      if v in x.calls {
        RegionEnds(x.pipe, v, x.calls[v].src, x.calls[v].i);
      }
      hide WriteRegion;
    case Read(n) => ReadKeepsEnds(x.pipe, n);
    case Close(_) =>
  }

  lemma {:induction false} RunGiven(x: World, steps: seq<Step>, w: nat)
    requires Shaped(x) && Run(x, steps).pipe.readopen
    ensures x.pipe.readopen && Given(Run(x, steps), w) == Given(x, w) + Asked(x, steps, w)
    decreases |steps|
  {
    if steps != [] {
      var y := DoStep(x, steps[0]);
      RunGiven(y, steps[1..], w);
      StepGiven(x, steps[0], w);
      hide DoStep, Given;
    }
  }

  /** As long as the reading end stays open no byte is lost: what arrived from a writer, then what its open call
      still owes, is what its calls were given, each whole and in order. */
  lemma NoByteIsLost(data: seq<Byte>, steps: seq<Step>, y: World, w: nat)
    requires |data| == PIPESIZE && y == Run(Opened(data), steps) && y.pipe.readopen
    ensures (w in y.calls ==> y.calls[w].i <= |y.calls[w].src|)
    ensures BytesOf(w, y.pipe.sent) + Pending(y, w) == Asked(Opened(data), steps, w)
  {
    EveryRunIsFifo(data, steps, y);
    RunGiven(Opened(data), steps, w);
    assert Balanced(y, w);
    hide BytesOf, Run, Asked;
  }

  /** A call ends only in its own region: with all of its remaining bytes in the ring, or, the reading end being
      closed, with the ring full. Until then it goes on with the same bytes. */
  lemma CallEnds(x: World, step: Step, w: nat)
    requires WorldOk(x) && w in x.calls
    ensures var c, y := x.calls[w], DoStep(x, step);
      && c.i <= |c.src|
      && (w in y.calls ==> y.calls[w].src == c.src && c.i <= y.calls[w].i <= |c.src|)
      && (w !in y.calls ==>
            && step == Continue(w)
            && exists k :: c.i <= k <= |c.src| && y.pipe.sent == x.pipe.sent + Copied(w, c.src, c.i, k)
                 && (k == |c.src| || (!x.pipe.readopen && |y.pipe.sent| == |y.pipe.taken| + PIPESIZE)))
  {
    if step.Continue? && step.w == w {
      var c := x.calls[w];
      WriteKeeps(x.pipe, w, c.src, c.i);
      var r := WriteRegion(x.pipe, w, c.src, c.i);
      assert r.0.sent == x.pipe.sent + Copied(w, c.src, c.i, r.1);
      hide WriteRegion, Fifo, BytesOf, Copied;
    } else {
      hide WriteRegion, Fifo, BytesOf, ReadRegion;
    }
  }

  /** Once 2^32 bytes have been written the pipe is dead: whatever anybody does, no byte is ever read again,
      although at least one is there. */
  lemma {:induction false} DeadAfterWrap(x: World, steps: seq<Step>, y: World)
    requires WorldOk(x) && |x.pipe.sent| >= UINT32 && y == Run(x, steps)
    ensures y.pipe.taken == x.pipe.taken && |y.pipe.taken| < UINT32 <= |y.pipe.sent|
    decreases |steps|
  {
    if steps != [] {
      var step, x' := steps[0], DoStep(x, steps[0]);
      StepKeeps(x, step);
      if step.Continue? && step.w in x.calls {
        WriteKeeps(x.pipe, step.w, x.calls[step.w].src, x.calls[step.w].i);
      } else if step.Read? {
        ReadTakesOldest(x.pipe, step.n);
      }
      hide WriteRegion, ReadRegion, Fifo;
      assert |x'.pipe.sent| >= UINT32 && x'.pipe.taken == x.pipe.taken;
      hide DoStep, WorldOk;
      DeadAfterWrap(x', steps[1..], y);
    }
  }

  lemma RunCons(x: World, steps: seq<Step>)
    requires Shaped(x) && steps != []
    ensures Shaped(DoStep(x, steps[0])) && Run(x, steps) == Run(DoStep(x, steps[0]), steps[1..])
  {
    hide DoStep, Shaped;
  }

  lemma RunNil(x: World, steps: seq<Step>)
    requires Shaped(x) && steps == []
    ensures Run(x, steps) == x
  {
  }

  lemma {:induction false} RunSplit(x: World, a: seq<Step>, b: seq<Step>)
    requires Shaped(x)
    ensures Run(x, a + b) == Run(Run(x, a), b)
    decreases |a|
  {
    hide DoStep, Shaped, Run;
    if a == [] {
      assert a + b == b;
      RunNil(x, a);
    } else {
      RunCons(x, a);
      RunCons(x, a + b);
      RunSplit(DoStep(x, a[0]), a[1..], b);
      assert (a + b)[1..] == a[1..] + b;
    }
  }

  lemma RunOne(x: World, steps: seq<Step>, step: Step)
    requires Shaped(x)
    ensures Run(x, steps + [step]) == DoStep(Run(x, steps), step)
  {
    hide DoStep, Shaped, Run;
    RunSplit(x, steps, [step]);
    RunEnds(x, steps);
    RunCons(Run(x, steps), [step]);
    assert [step][1..] == [];
    RunNil(DoStep(Run(x, steps), step), [step][1..]);
  }

  lemma RunEnds(x: World, steps: seq<Step>)
    requires Shaped(x)
    ensures Shaped(Run(x, steps))
  {
  }

  /** Nobody is writing and everything written has been read. */
  ghost predicate Idle(x: World, m: nat) {
    WorldOk(x) && x.calls == map[] && |x.pipe.sent| == m && |x.pipe.taken| == m
  }

  lemma OneByteIn(x: World, m: nat, b: Byte)
    requires Idle(x, m) && m < UINT32
    ensures var y := DoStep(DoStep(x, StartWrite(0, [b])), Continue(0));
      WorldOk(y) && y.calls == map[] && |y.pipe.sent| == m + 1 && |y.pipe.taken| == m
  {
    StepKeeps(x, StartWrite(0, [b]));
    var x1 := DoStep(x, StartWrite(0, [b]));
    StepKeeps(x1, Continue(0));
    WriteKeeps(x1.pipe, 0, [b], 0);
    FullIsExact(x1.pipe);
    hide WorldOk, Fifo, BytesOf, WriteRegion;
    assert x1.calls - {0} == map[];
  }

  lemma OneByteOut(x: World, m: nat)
    requires WorldOk(x) && x.calls == map[] && |x.pipe.sent| == m + 1 && |x.pipe.taken| == m && m + 1 < UINT32
    ensures Idle(DoStep(x, Read(1)), m + 1)
  {
    StepKeeps(x, Read(1));
    ReadTakesOldest(x.pipe, 1);
    hide WorldOk, Fifo, BytesOf, ReadRegion;
  }

  /** A pipe can carry any number of bytes below 2^32, one at a time. */
  lemma {:induction false} Carries(data: seq<Byte>, m: nat) returns (steps: seq<Step>)
    requires |data| == PIPESIZE && m < UINT32
    ensures Idle(Run(Opened(data), steps), m)
    decreases m
  {
    hide DoStep, Idle, WorldOk;
    if m == 0 {
      steps := [];
      FreshIsIdle(data);
    } else {
      var before := Carries(data, m - 1);
      var x := Run(Opened(data), before);
      IdleIsOk(x, m - 1);
      OneByteIn(x, m - 1, 0);
      OneByteOut(DoStep(DoStep(x, StartWrite(0, [0])), Continue(0)), m - 1);
      RunOne(Opened(data), before, StartWrite(0, [0]));
      RunOne(Opened(data), before + [StartWrite(0, [0])], Continue(0));
      RunOne(Opened(data), before + [StartWrite(0, [0])] + [Continue(0)], Read(1));
      steps := before + [StartWrite(0, [0])] + [Continue(0)] + [Read(1)];
    }
  }

  lemma FreshIsIdle(data: seq<Byte>)
    requires |data| == PIPESIZE
    ensures Idle(Opened(data), 0)
  {
  }

  lemma IdleIsOk(x: World, m: nat)
    requires Idle(x, m)
    ensures Shaped(x)
  {
  }

  /** The wrap-around can be reached: a run after which one byte waits that nobody can ever read. */
  lemma WrapIsReachable(data: seq<Byte>) returns (steps: seq<Step>)
    requires |data| == PIPESIZE
    ensures var y := Run(Opened(data), steps);
      && |y.pipe.sent| == |y.pipe.taken| + 1 && !Readable(y.pipe)
      && forall more: seq<Step> :: Run(y, more).pipe.taken == y.pipe.taken
  {
    var before := Carries(data, UINT32 - 1);
    var x := Run(Opened(data), before);
    OneByteIn(x, UINT32 - 1, 0);
    RunOne(Opened(data), before, StartWrite(0, [0]));
    RunOne(Opened(data), before + [StartWrite(0, [0])], Continue(0));
    steps := before + [StartWrite(0, [0])] + [Continue(0)];
    var y := Run(Opened(data), steps);
    ReadableIsExact(y.pipe);
    forall more: seq<Step> ensures Run(y, more).pipe.taken == y.pipe.taken {
      DeadAfterWrap(y, more, Run(y, more));
    }
  }

  // ---- the buffer in place ------------------------------------------------

  class Buffer {
    const data: array<Byte>
    var nread: nat
    var nwrite: nat
    var readopen: bool
    var writeopen: bool
    ghost var taken: seq<Byte>
    ghost var sent: seq<Tagged>

    /** pipe_alloc's initialisation of the page. */
    constructor (data: array<Byte>)
      requires data.Length == PIPESIZE
      ensures View() == Opened(data[..]).pipe && this.data == data
    {
      this.data, nread, nwrite, readopen, writeopen, taken, sent := data, 0, 0, true, true, [], [];
    }

    ghost function View(): State
      reads this, data
    {
      State(data[..], nread, nwrite, readopen, writeopen, taken, sent)
    }

    /** pipe_write of the first `n` bytes of `src`, from byte `i` until it returns or sleeps: it returns n when Done
        and -1 when Broken. A negative count is Done at once and writes nothing. */
    method Write(ghost writer: nat, src: seq<Byte>, n: int, i: nat) returns (k: nat, end: WriteEnd)
      requires data.Length == PIPESIZE && n <= |src| && (i == 0 || i <= n)
      modifies `nwrite, `sent, data
      ensures (View(), k, end) == WriteRegion(old(View()), writer, src[..if n < 0 then 0 else n], i)
      ensures n <= 0 ==> View() == old(View()) && end == Done
    {
      ghost var bytes := src[..if n < 0 then 0 else n];
      k := i;
      while k < n
        invariant i <= k <= |bytes|
        invariant n <= 0 ==> View() == old(View())
        invariant WriteRegion(old(View()), writer, bytes, i) == WriteRegion(View(), writer, bytes, k)
      {
        if nwrite == (nread + PIPESIZE) % UINT32 {
          return k, if readopen then Asleep else Broken;
        }
        ghost var before := View();
        assert bytes[k] == src[k];
        data[nwrite % PIPESIZE] := src[k];
        nwrite := (nwrite + 1) % UINT32;
        sent := sent + [Tagged(writer, src[k])];
        assert View() == PutByte(before, writer, src[k]);
        k := k + 1;
      }
      end := Done;
    }

    /** pipe_read: none while the pipe is empty and open for writing (the caller sleeps), else the bytes read. */
    method Read(n: int) returns (asleep: bool, bytes: seq<Byte>)
      requires data.Length == PIPESIZE
      modifies `nread, `taken
      ensures asleep == (old(nread) == old(nwrite) && writeopen)
      ensures View() == if asleep then old(View()) else ReadRegion(old(View()), if n < 0 then 0 else n)
      ensures taken == old(taken) + bytes
    {
      bytes := [];
      if nread == nwrite && writeopen {
        return true, [];
      }
      var i := 0;
      ghost var m := if n < 0 then 0 else n;
      while i < n && nread < nwrite
        invariant 0 <= i <= m
        invariant ReadRegion(old(View()), m) == ReadRegion(View(), m - i)
        invariant taken == old(taken) + bytes
      {
        var b := data[nread % PIPESIZE];
        ghost var before := View();
        bytes := bytes + [b];
        nread := (nread + 1) % UINT32;
        taken := taken + [b];
        assert View() == TakeByte(before);
        i := i + 1;
      }
      asleep := false;
    }
  }
}
