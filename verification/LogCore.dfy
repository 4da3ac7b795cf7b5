/** The in-memory side of the log: admission, absorption, group commit, and the space they need. */
module LogCore {
  import opened Wrappers
  import opened Params
  import opened Storage

  /** The fields of struct log the protocol works on; `lh` is lh.block[0..lh.n]. */
  datatype Log = Log(lh: seq<nat>, outstanding: int, committing: bool)

  const EMPTY_LOG := Log([], 0, false)

  /** The two waiting conditions of log_begin_op, negated. */
  predicate Admits(l: Log) {
    !l.committing && |l.lh| + (l.outstanding + 1) * MAXOPBLOCKS <= LOGSIZE
  }

  function Begin(l: Log): Log { l.(outstanding := l.outstanding + 1) }

  /** log_end_op: the last operation out starts the commit. */
  function EndOp(l: Log): Log {
    l.(outstanding := l.outstanding - 1, committing := l.committing || l.outstanding == 1)
  }

  /** log_write refuses when the log is full or no operation is open. */
  predicate Refuses(l: Log, size: nat) {
    |l.lh| >= LOGSIZE || |l.lh| >= size - 1 || l.outstanding < 1
  }

  /** log_write: append the block number unless it is there already. */
  function LogWrite(l: Log, size: nat, b: nat): Log {
    if Refuses(l, size) || b in l.lh then l else l.(lh := l.lh + [b])
  }

  // ---- transactions: the log plus the open operations ---------------------

  datatype Op = Op(id: nat, logged: set<nat>)
  datatype Tx = Tx(log: Log, ops: seq<Op>, nextId: nat)

  datatype TxStep = TBegin | TWrite(i: nat, b: nat) | TEnd(i: nat) | TClear | TDone

  const NEW_TX := Tx(EMPTY_LOG, [], 0)

  function Without<T>(s: seq<T>, i: nat): seq<T>
    requires i < |s|
  {
    s[..i] + s[i + 1..]
  }

  /** One locked region of log.c, by operations that each log at most `budget` distinct blocks.
      None: the caller sleeps (begin) or breaks its budget (write). */
  function DoTx(size: nat, budget: nat, t: Tx, step: TxStep): Option<Tx> {
    match step
    case TBegin =>
      if Admits(t.log) then Some(Tx(Begin(t.log), t.ops + [Op(t.nextId, {})], t.nextId + 1)) else None
    case TWrite(i, b) =>
      if i < |t.ops| && |t.ops[i].logged + {b}| <= budget then
        Some(t.(log := LogWrite(t.log, size, b), ops := t.ops[i := Op(t.ops[i].id, t.ops[i].logged + {b})]))
      else None
    case TEnd(i) =>
      if i < |t.ops| then Some(t.(log := EndOp(t.log), ops := Without(t.ops, i))) else None
    case TClear =>
      if t.log.committing then Some(t.(log := t.log.(lh := []))) else None
    case TDone =>
      if t.log.committing && t.log.lh == [] then Some(t.(log := t.log.(committing := false))) else None
  }

  /** What the open operations may still log. */
  function Slack(budget: nat, ops: seq<Op>): int {
    if ops == [] then 0
    else Slack(budget, ops[..|ops| - 1]) + budget - |ops[|ops| - 1].logged|
  }

  /** Largest number of blocks a group can reach with this budget. */
  function Reach(budget: nat): int { MAXOPBLOCKS + 2 * budget }

  /** log_write's capacity covers the reach of the budget. */
  predicate Roomy(size: nat, budget: nat) {
    budget <= MAXOPBLOCKS && Reach(budget) <= size - 1
  }

  ghost predicate TxInv(budget: nat, t: Tx) {
    && t.log.outstanding == |t.ops|
    && (t.log.committing ==> t.ops == [])
    && (t.ops == [] && !t.log.committing ==> t.log.lh == [])
    && Distinct(t.log.lh)
    && (forall i :: 0 <= i < |t.ops| ==> |t.ops[i].logged| <= budget && t.ops[i].id < t.nextId)
    && (forall i, j :: 0 <= i < j < |t.ops| ==> t.ops[i].id != t.ops[j].id)
    && (forall i, b :: 0 <= i < |t.ops| && b in t.ops[i].logged ==> b in t.log.lh)
    && |t.log.lh| + Slack(budget, t.ops) <= Reach(budget)
  }

  lemma {:induction false} SlackUpdate(budget: nat, ops: seq<Op>, i: nat, op: Op)
    requires i < |ops|
    ensures Slack(budget, ops[i := op]) == Slack(budget, ops) + |ops[i].logged| - |op.logged|
  {
    var n := |ops| - 1;
    if i == n {
      assert ops[i := op][..n] == ops[..n];
    } else {
      SlackUpdate(budget, ops[..n], i, op);
      assert ops[i := op][..n] == ops[..n][i := op];
    }
  }

  lemma {:induction false} SlackWithout(budget: nat, ops: seq<Op>, i: nat)
    requires i < |ops|
    ensures Slack(budget, Without(ops, i)) == Slack(budget, ops) - budget + |ops[i].logged|
  {
    var n := |ops| - 1;
    if i == n {
      assert Without(ops, i) == ops[..n];
    } else {
      SlackWithout(budget, ops[..n], i);
      assert Without(ops, i)[..n - 1] == Without(ops[..n], i);
    }
  }

  lemma {:induction false} SlackBounds(budget: nat, ops: seq<Op>)
    requires forall i :: 0 <= i < |ops| ==> |ops[i].logged| <= budget
    ensures 0 <= Slack(budget, ops) <= budget * |ops|
    ensures forall i :: 0 <= i < |ops| ==> Slack(budget, ops) >= budget - |ops[i].logged|
  {
    if ops != [] {
      SlackBounds(budget, ops[..|ops| - 1]);
    }
  }

  lemma BeginKeeps(size: nat, budget: nat, t: Tx, t': Tx)
    requires budget <= MAXOPBLOCKS && TxInv(budget, t) && DoTx(size, budget, t, TBegin) == Some(t')
    ensures TxInv(budget, t')
  {
    SlackBounds(budget, t.ops);
    assert t'.ops[..|t.ops|] == t.ops;
    assert |t.ops| <= 2;
    if |t.ops| == 0 {
      assert Slack(budget, t'.ops) == budget;
    } else if |t.ops| == 1 {
      assert Slack(budget, t'.ops) <= 2 * budget;
    } else {
      assert Slack(budget, t'.ops) <= 3 * budget;
    }
  }

  /** With room for the budget no write is lost: the block is in the log afterwards. */
  lemma WriteKeeps(size: nat, budget: nat, t: Tx, i: nat, b: nat, t': Tx)
    requires Roomy(size, budget) && TxInv(budget, t) && DoTx(size, budget, t, TWrite(i, b)) == Some(t')
    ensures TxInv(budget, t')
    ensures t'.log.lh == if b in t.log.lh then t.log.lh else t.log.lh + [b]
  {
    var op' := Op(t.ops[i].id, t.ops[i].logged + {b});
    SlackUpdate(budget, t.ops, i, op');
    SlackBounds(budget, t.ops);
    if b in t.ops[i].logged {
      assert op'.logged == t.ops[i].logged;
    }
  }

  lemma EndKeeps(size: nat, budget: nat, t: Tx, i: nat, t': Tx)
    requires TxInv(budget, t) && DoTx(size, budget, t, TEnd(i)) == Some(t')
    ensures TxInv(budget, t')
  {
    SlackWithout(budget, t.ops, i);
    assert |t'.ops| == |t.ops| - 1;
  }

  lemma CommitKeeps(size: nat, budget: nat, t: Tx, step: TxStep, t': Tx)
    requires step.TClear? || step.TDone?
    requires TxInv(budget, t) && DoTx(size, budget, t, step) == Some(t')
    ensures TxInv(budget, t')
  {
  }

  /** log_write, whole: inside an operation, with room, the block is in the group afterwards; otherwise the group
      stays; never anything else changes. */
  lemma LogWriteOutcome(l: Log, size: nat, b: nat)
    ensures var l' := LogWrite(l, size, b);
      && l' == l.(lh := l'.lh)
      && (b in l'.lh <==> b in l.lh || (l.outstanding >= 1 && |l.lh| < LOGSIZE && |l.lh| + 1 < size))
      && (l'.lh == l.lh || (b !in l.lh && l'.lh == l.lh + [b]))
  {
  }

  /** The admission test, case by case: a first operation while 20 blocks or fewer are logged, a second while 10 or
      fewer are, a third on an empty log, never a fourth, and nobody during a commit. */
  lemma AdmitsExactly(l: Log)
    requires l.outstanding >= 0
    ensures l.committing ==> !Admits(l)
    ensures !l.committing ==> (Admits(l) <==>
      (l.outstanding == 0 && |l.lh| <= 20) || (l.outstanding == 1 && |l.lh| <= 10) || (l.outstanding == 2 && l.lh == []))
  {
  }

  // ---- whole runs ---------------------------------------------------------

  function RunTx(size: nat, budget: nat, t: Tx, steps: seq<TxStep>): Option<Tx>
    decreases |steps|
  {
    if steps == [] then Some(t)
    else match DoTx(size, budget, t, steps[0])
      case None => None
      case Some(t') => RunTx(size, budget, t', steps[1..])
  }

  lemma {:induction false} RunKeeps(size: nat, budget: nat, t: Tx, steps: seq<TxStep>)
    requires Roomy(size, budget) && TxInv(budget, t) && RunTx(size, budget, t, steps).Some?
    ensures TxInv(budget, RunTx(size, budget, t, steps).value)
    decreases |steps|
  {
    if steps != [] {
      var t' := DoTx(size, budget, t, steps[0]).value;
      match steps[0] {
      case TBegin => BeginKeeps(size, budget, t, t');
      case TWrite(i, b) => WriteKeeps(size, budget, t, i, b, t');
      case TEnd(i) => EndKeeps(size, budget, t, i, t');
      case TClear => CommitKeeps(size, budget, t, steps[0], t');
      case TDone => CommitKeeps(size, budget, t, steps[0], t');
      }
      RunKeeps(size, budget, t', steps[1..]);
    }
  }

  /** With the log of file_system.c and operations of at most 9 blocks, no run ever logs more than 28 blocks,
      so log_write never refuses an operation's write. */
  lemma NineBlocksNeverFill(steps: seq<TxStep>)
    requires RunTx(LOGSIZE, 9, NEW_TX, steps).Some?
    ensures var t := RunTx(LOGSIZE, 9, NEW_TX, steps).value;
      |t.log.lh| <= 28 && (t.ops != [] ==> !Refuses(t.log, LOGSIZE))
  {
    RunKeeps(LOGSIZE, 9, NEW_TX, steps);
    SlackBounds(9, RunTx(LOGSIZE, 9, NEW_TX, steps).value.ops);
  }

  /** Operations spending the whole nominal budget lose nothing once the log is one block larger. */
  lemma LargerLogNeverLoses(size: nat, steps: seq<TxStep>, i: nat, b: nat, t: Tx, t': Tx)
    requires size >= LOGSIZE + 1
    requires RunTx(size, MAXOPBLOCKS, NEW_TX, steps) == Some(t)
    requires DoTx(size, MAXOPBLOCKS, t, TWrite(i, b)) == Some(t')
    ensures b in t'.log.lh
  {
    RunKeeps(size, MAXOPBLOCKS, NEW_TX, steps);
    WriteKeeps(size, MAXOPBLOCKS, t, i, b, t');
  }

  lemma {:induction false} RunSplit(size: nat, budget: nat, t: Tx, a: seq<TxStep>, b: seq<TxStep>)
    requires RunTx(size, budget, t, a).Some?
    ensures RunTx(size, budget, t, a + b) == RunTx(size, budget, RunTx(size, budget, t, a).value, b)
    decreases |a|
  {
    if a == [] {
      assert a + b == b;
    } else {
      RunSplit(size, budget, DoTx(size, budget, t, a[0]).value, a[1..], b);
      assert (a + b)[1..] == a[1..] + b;
    }
  }

  function Upto(from: nat, k: nat): (s: set<nat>)
    ensures |s| == k && forall x :: x in s <==> from <= x < from + k
  {
    if k == 0 then {} else Upto(from, k - 1) + {from + k - 1}
  }

  function Range(from: nat, k: nat): seq<nat> {
    seq(k, j requires 0 <= j < k => from + j)
  }

  lemma RunAppend(size: nat, budget: nat, t: Tx, a: seq<TxStep>, step: TxStep)
    requires RunTx(size, budget, t, a).Some?
    ensures RunTx(size, budget, t, a + [step]) == DoTx(size, budget, RunTx(size, budget, t, a).value, step)
  {
    RunSplit(size, budget, t, a, [step]);
    assert [step][1..] == [];
  }

  /** `t` after operation `i` has logged `k` fresh blocks. */
  function Filled(t: Tx, i: nat, k: nat): Tx
    requires i < |t.ops|
  {
    var n := |t.log.lh|;
    t.(log := t.log.(lh := Range(0, n + k)), ops := t.ops[i := Op(t.ops[i].id, Upto(n, k))])
  }

  predicate CanFill(size: nat, budget: nat, t: Tx, i: nat, k: nat) {
    && i < |t.ops| && t.ops[i].logged == {} && k <= budget && t.log.outstanding > 0
    && t.log.lh == Range(0, |t.log.lh|) && |t.log.lh| + k <= LOGSIZE && |t.log.lh| + k <= size - 1
  }

  lemma RangeNext(n: nat)
    ensures Range(0, n + 1) == Range(0, n) + [n] && n !in Range(0, n)
  {
  }

  lemma UptoNext(from: nat, k: nat)
    ensures Upto(from, k + 1) == Upto(from, k) + {from + k} && |Upto(from, k + 1)| == k + 1
  {
  }

  lemma FillOne(size: nat, budget: nat, t: Tx, i: nat, k: nat)
    requires CanFill(size, budget, t, i, k + 1)
    ensures DoTx(size, budget, Filled(t, i, k), TWrite(i, |t.log.lh| + k)) == Some(Filled(t, i, k + 1))
  {
    hide Upto;
    var n := |t.log.lh|;
    UptoNext(n, k);
    RangeNext(n + k);
    RangeSize(0, n + k);
    hide Range;
    var op, op' := Op(t.ops[i].id, Upto(n, k)), Op(t.ops[i].id, Upto(n, k + 1));
    assert t.ops[i := op][i := op'] == t.ops[i := op'];
  }

  lemma RangeSize(from: nat, k: nat)
    ensures |Range(from, k)| == k
  {
  }

  lemma FilledNone(size: nat, budget: nat, t: Tx, i: nat)
    requires CanFill(size, budget, t, i, 0)
    ensures Filled(t, i, 0) == t
  {
    assert Upto(|t.log.lh|, 0) == {};
    assert t.ops[i := Op(t.ops[i].id, {})] == t.ops;
  }

  /** A run from the empty log, by operations of at most `budget` blocks. */
  ghost predicate Reaches(size: nat, budget: nat, steps: seq<TxStep>, t: Tx) {
    RunTx(size, budget, NEW_TX, steps) == Some(t)
  }

  lemma FillStep(size: nat, budget: nat, steps: seq<TxStep>, t: Tx, i: nat, k: nat)
    requires CanFill(size, budget, t, i, k + 1) && Reaches(size, budget, steps, Filled(t, i, k))
    ensures Reaches(size, budget, steps + [TWrite(i, |t.log.lh| + k)], Filled(t, i, k + 1))
  {
    FillOne(size, budget, t, i, k);
    RunAppend(size, budget, NEW_TX, steps, TWrite(i, |t.log.lh| + k));
  }

  /** Operation `i` can be driven to log `k` fresh blocks. */
  lemma {:induction false} Fill(size: nat, budget: nat, steps: seq<TxStep>, t: Tx, i: nat, k: nat) returns (steps': seq<TxStep>)
    requires CanFill(size, budget, t, i, k) && Reaches(size, budget, steps, t)
    ensures Reaches(size, budget, steps', Filled(t, i, k))
  {
    steps' := steps;
    FilledNone(size, budget, t, i);
    for j := 0 to k
      invariant Reaches(size, budget, steps', Filled(t, i, j))
    {
      FillStep(size, budget, steps', t, i, j);
      steps' := steps' + [TWrite(i, |t.log.lh| + j)];
    }
  }

  lemma FillMore(size: nat, budget: nat, steps: seq<TxStep>, t: Tx, i: nat, n: nat, k: nat) returns (steps': seq<TxStep>, t': Tx)
    requires n == |t.log.lh| && CanFill(size, budget, t, i, k) && Reaches(size, budget, steps, t)
    ensures Reaches(size, budget, steps', t') && t'.log == t.log.(lh := Range(0, n + k))
    ensures |t'.ops| == |t.ops| && forall j :: 0 <= j < |t.ops| && j != i ==> t'.ops[j] == t.ops[j]
    ensures |t'.ops[i].logged| == k
  {
    steps' := Fill(size, budget, steps, t, i, k);
    t' := Filled(t, i, k);
  }

  lemma EndOne(size: nat, budget: nat, steps: seq<TxStep>, t: Tx, i: nat) returns (steps': seq<TxStep>, t': Tx)
    requires Reaches(size, budget, steps, t) && i < |t.ops| && t.log.outstanding > 1
    ensures Reaches(size, budget, steps', t') && t'.ops == Without(t.ops, i) && t'.log == t.log.(outstanding := t.log.outstanding - 1)
  {
    steps', t' := steps + [TEnd(i)], t.(log := EndOp(t.log), ops := Without(t.ops, i));
    RunAppend(size, budget, NEW_TX, steps, TEnd(i));
  }

  lemma BeginOne(size: nat, budget: nat, steps: seq<TxStep>, t: Tx) returns (steps': seq<TxStep>, t': Tx)
    requires Reaches(size, budget, steps, t) && Admits(t.log)
    ensures Reaches(size, budget, steps', t') && t'.ops == t.ops + [Op(t.nextId, {})] && t'.log == Begin(t.log)
  {
    steps', t' := steps + [TBegin], Tx(Begin(t.log), t.ops + [Op(t.nextId, {})], t.nextId + 1);
    RunAppend(size, budget, NEW_TX, steps, TBegin);
  }

  // ---- the space bound is exact -------------------------------------------

  /** One operation open that has logged nothing, `n` blocks logged by others that have ended. */
  predicate Warm(t: Tx, n: nat) {
    t.log == Log(Range(0, n), 1, false) && |t.ops| == 1 && t.ops[0].logged == {}
  }

  lemma WarmStart(size: nat, budget: nat) returns (steps: seq<TxStep>, t: Tx)
    ensures Reaches(size, budget, steps, t) && Warm(t, 0)
  {
    steps, t := BeginOne(size, budget, [], NEW_TX);
    assert Range(0, 0) == [];
  }

  /** While the first operation waits, others come and go until `m` blocks are logged. */
  lemma WarmUp(size: nat, budget: nat, m: nat) returns (steps: seq<TxStep>, t: Tx)
    requires 1 <= budget && m <= MAXOPBLOCKS && (m <= size - 1 || m == 0)
    ensures Reaches(size, budget, steps, t) && Warm(t, m)
  {
    hide Reaches, Range;
    var n := 0;
    steps, t := WarmStart(size, budget);
    while n < m
      invariant n <= m && Reaches(size, budget, steps, t) && Warm(t, n)
    {
      var k := if budget < m - n then budget else m - n;
      steps, t := WarmMore(size, budget, steps, t, n, k);
      n := n + k;
    }
  }

  lemma WarmMore(size: nat, budget: nat, steps: seq<TxStep>, t: Tx, n: nat, k: nat) returns (steps': seq<TxStep>, t': Tx)
    requires Reaches(size, budget, steps, t) && Warm(t, n) && k <= budget && n + k <= MAXOPBLOCKS && n + k <= size - 1
    ensures Reaches(size, budget, steps', t') && Warm(t', n + k)
  {
    hide Reaches;
    RangeSize(0, n);
    steps', t' := BeginOne(size, budget, steps, t);
    steps', t' := FillMore(size, budget, steps', t', 1, n, k);
    steps', t' := EndOne(size, budget, steps', t', 1);
  }

  /** From the ten blocks of earlier operations on, two operations can share the rest. */
  lemma SharedRest(size: nat, budget: nat, m: nat) returns (steps: seq<TxStep>, t: Tx)
    requires 1 <= budget <= MAXOPBLOCKS < m <= Reach(budget) && m <= size - 1
    ensures Reaches(size, budget, steps, t) && |t.log.lh| == m && t.log.outstanding > 0 && t.ops != []
    ensures t.log.lh == Range(0, m) && |t.ops[0].logged| <= m - MAXOPBLOCKS - (if budget < m - MAXOPBLOCKS then budget else m - MAXOPBLOCKS)
  {
    hide Reaches;
    RangeSize(0, MAXOPBLOCKS);
    RangeSize(0, m);
    steps, t := WarmUp(size, budget, MAXOPBLOCKS);
    steps, t := BeginOne(size, budget, steps, t);
    var k := if budget < m - MAXOPBLOCKS then budget else m - MAXOPBLOCKS;
    RangeSize(0, MAXOPBLOCKS + k);
    steps, t := FillMore(size, budget, steps, t, 1, MAXOPBLOCKS, k);
    steps, t := FillMore(size, budget, steps, t, 0, MAXOPBLOCKS + k, m - MAXOPBLOCKS - k);
  }

  /** Every group size up to the bound is reached, by a run that leaves the first operation part of its budget
      unless the group is as large as it can get. */
  lemma GroupReached(size: nat, budget: nat, m: nat) returns (steps: seq<TxStep>, t: Tx)
    requires 1 <= budget <= MAXOPBLOCKS && m <= Reach(budget) && (m <= size - 1 || m == 0)
    ensures Reaches(size, budget, steps, t) && t.log.lh == Range(0, m) && |t.log.lh| == m
    ensures t.ops != [] && (m < Reach(budget) ==> |t.ops[0].logged| < budget)
  {
    hide Reaches;
    RangeSize(0, m);
    if m <= MAXOPBLOCKS {
      steps, t := WarmUp(size, budget, m);
    } else {
      steps, t := SharedRest(size, budget, m);
    }
  }

  lemma {:induction false} GroupFits(size: nat, budget: nat, t: Tx, steps: seq<TxStep>)
    requires RunTx(size, budget, t, steps).Some? && (|t.log.lh| <= size - 1 || t.log.lh == [])
    ensures var l := RunTx(size, budget, t, steps).value.log; |l.lh| <= size - 1 || l.lh == []
    decreases |steps|
  {
    if steps != [] {
      GroupFits(size, budget, DoTx(size, budget, t, steps[0]).value, steps[1..]);
    }
  }

  /** The sizes a group can have, exactly: up to Reach(budget) blocks, as far as the log has slots. */
  lemma GroupSizes(size: nat, budget: nat, m: nat)
    requires 1 <= budget <= MAXOPBLOCKS
    ensures (exists steps, t :: Reaches(size, budget, steps, t) && |t.log.lh| == m)
            <==> m <= Reach(budget) && (m <= size - 1 || m == 0)
  {
    if m <= Reach(budget) && (m <= size - 1 || m == 0) {
      var steps, t := GroupReached(size, budget, m);
    }
    forall steps, t | Reaches(size, budget, steps, t) && |t.log.lh| == m
      ensures m <= Reach(budget) && (m <= size - 1 || m == 0)
    {
      GroupFits(size, budget, NEW_TX, steps);
      if Roomy(size, budget) {
        RunKeeps(size, budget, NEW_TX, steps);
        SlackBounds(budget, t.ops);
      }
    }
  }

  lemma OpenMore(size: nat, budget: nat, m: nat) returns (steps: seq<TxStep>, t: Tx)
    requires m <= 3
    ensures Reaches(size, budget, steps, t) && |t.ops| == m && t.log == Log([], m, false)
  {
    steps, t := [], NEW_TX;
    for j := 0 to m
      invariant Reaches(size, budget, steps, t) && |t.ops| == j && t.log == Log([], j, false)
    {
      AdmitsExactly(t.log);
      steps, t := BeginOne(size, budget, steps, t);
    }
  }

  lemma {:induction false} OpenCount(size: nat, budget: nat, t: Tx, steps: seq<TxStep>)
    requires RunTx(size, budget, t, steps).Some? && t.log.outstanding == |t.ops| <= 3
    ensures var t' := RunTx(size, budget, t, steps).value; t'.log.outstanding == |t'.ops| <= 3
    decreases |steps|
  {
    if steps != [] {
      AdmitsExactly(t.log);
      OpenCount(size, budget, DoTx(size, budget, t, steps[0]).value, steps[1..]);
    }
  }

  /** Up to three operations can be open at once, and no more, whatever the log's size and their budget. */
  lemma OpenOperations(size: nat, budget: nat, m: nat)
    ensures (exists steps, t :: Reaches(size, budget, steps, t) && |t.ops| == m) <==> m <= 3
  {
    if m <= 3 {
      var steps, t := OpenMore(size, budget, m);
    }
    forall steps, t | Reaches(size, budget, steps, t) && |t.ops| == m ensures m <= 3 {
      OpenCount(size, budget, NEW_TX, steps);
    }
  }

  /** An operation within its budget logs block `b`, and the block is not in the log afterwards. */
  predicate Loses(size: nat, budget: nat, t: Tx, i: nat, b: nat) {
    var t' := DoTx(size, budget, t, TWrite(i, b));
    t'.Some? && b !in t'.value.log.lh
  }

  ghost predicate NeverLoses(size: nat, budget: nat) {
    forall steps, t, i, b: nat :: Reaches(size, budget, steps, t) ==> !Loses(size, budget, t, i, b)
  }

  /** A log too small for the reach of the budget: fill every slot, then let an operation with budget left log
      one block more. */
  lemma SmallLogLoses(size: nat, budget: nat) returns (steps: seq<TxStep>, t: Tx, b: nat)
    requires 1 <= budget <= MAXOPBLOCKS && size - 1 < Reach(budget)
    ensures Reaches(size, budget, steps, t) && Loses(size, budget, t, 0, b)
  {
    b := if size == 0 then 0 else size - 1;
    steps, t := GroupReached(size, budget, b);
    hide Reaches;
  }

  /** The space bound is exact: operations of at most `budget` blocks never lose one, whatever the run, if and
      only if the log has Reach(budget) slots. */
  lemma SpaceBoundIff(size: nat, budget: nat)
    requires 1 <= budget <= MAXOPBLOCKS
    ensures NeverLoses(size, budget) <==> Reach(budget) <= size - 1
  {
    if Reach(budget) <= size - 1 {
      forall steps, t, i, b: nat | Reaches(size, budget, steps, t) && DoTx(size, budget, t, TWrite(i, b)).Some?
        ensures !Loses(size, budget, t, i, b)
      {
        RunKeeps(size, budget, NEW_TX, steps);
        WriteKeeps(size, budget, t, i, b, DoTx(size, budget, t, TWrite(i, b)).value);
      }
    } else {
      var steps, t, b := SmallLogLoses(size, budget);
    }
  }

  /** With the nominal budget of 10 the 30th block of a group is refused and lost. */
  lemma TenBlocksCanLose() returns (steps: seq<TxStep>, t: Tx, b: nat)
    ensures Reaches(LOGSIZE, MAXOPBLOCKS, steps, t) && Loses(LOGSIZE, MAXOPBLOCKS, t, 0, b)
  {
    steps, t, b := SmallLogLoses(LOGSIZE, MAXOPBLOCKS);
  }

  /** The bound of 28 blocks is reached by operations of at most 9 blocks. */
  lemma TwentyEightReached() returns (steps: seq<TxStep>, t: Tx)
    ensures Reaches(LOGSIZE, 9, steps, t) && |t.log.lh| == 28
  {
    steps, t := GroupReached(LOGSIZE, 9, 28);
  }
}
