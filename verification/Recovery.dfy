/** The write-ahead log on disk (kernel/fs/log.c): header block, slots, and what recovery makes of them. */
module Recovery {
  import opened Params
  import opened Bytes
  import opened Storage

  /** Where the log lives: the header at `start`, slot `i` at `start + 1 + i`. */
  datatype Layout = Layout(start: nat, size: nat) {
    predicate InLog(b: nat) { start <= b < start + size }
    function Slot(i: nat): nat { start + 1 + i }
    /** Number of blocks one transaction may hold before log_write refuses. */
    function Capacity(): int { if size - 1 < LOGSIZE then size - 1 else LOGSIZE }
  }

  // ---- header codec -------------------------------------------------------

  /** write_head overwrites the count and the first n entries; the rest of the block stays. */
  function WithHeader(prev: Block, blocks: seq<nat>): Block
    requires |blocks| <= LOGSIZE
  {
    Patch(prev, 0, ToLe(|blocks|, 4) + Words(blocks))
  }

  function HeaderCount(b: Block): nat { WordAt(b, 0) }

  function HeaderBlocks(b: Block): (s: seq<nat>)
    ensures HeaderCount(b) <= LOGSIZE ==> |s| == HeaderCount(b)
    ensures |s| <= LOGSIZE
  {
    seq(if HeaderCount(b) <= LOGSIZE then HeaderCount(b) else 0,
        i requires 0 <= i < LOGSIZE => WordAt(b, 4 + 4 * i))
  }

  lemma HeaderEnds(prev: Block, blocks: seq<nat>)
    requires |blocks| <= LOGSIZE
    ensures var h := WithHeader(prev, blocks);
      h[0..4] == ToLe(|blocks|, 4) && h[4 + 4 * |blocks|..] == prev[4 + 4 * |blocks|..]
  {
    hide ToLe, Words, Patch;
    PatchParts(prev, 0, ToLe(|blocks|, 4) + Words(blocks), 0, 4);
  }

  lemma HeaderEntry(prev: Block, blocks: seq<nat>, i: nat)
    requires i < |blocks| <= LOGSIZE && forall j :: 0 <= j < |blocks| ==> blocks[j] < UINT32
    ensures WordAt(WithHeader(prev, blocks), 4 + 4 * i) == blocks[i]
  {
    hide ToLe, FromLe, Words, Patch;
    var p, w := ToLe(|blocks|, 4) + Words(blocks), Words(blocks);
    WordsAt(blocks, i);
    PatchParts(prev, 0, p, 4 + 4 * i, 8 + 4 * i);
    assert p[4 + 4 * i..8 + 4 * i] == w[4 * i..4 * i + 4];
  }

  /** struct logheader: the count, then the block numbers; write_head leaves the bytes after them alone. */
  lemma HeaderPlaces(prev: Block, blocks: seq<nat>)
    requires |blocks| <= LOGSIZE && forall i :: 0 <= i < |blocks| ==> blocks[i] < UINT32
    ensures var h := WithHeader(prev, blocks);
      && h[0..4] == ToLe(|blocks|, 4)
      && (forall i: nat :: i < |blocks| ==> WordAt(h, 4 + 4 * i) == blocks[i])
      && h[4 + 4 * |blocks|..] == prev[4 + 4 * |blocks|..]
  {
    hide ToLe, FromLe, Words, Patch, WithHeader, WordAt;
    HeaderEnds(prev, blocks);
    forall i: nat | i < |blocks| ensures WordAt(WithHeader(prev, blocks), 4 + 4 * i) == blocks[i] {
      HeaderEntry(prev, blocks, i);
    }
  }

  lemma HeaderRoundTrip(prev: Block, blocks: seq<nat>)
    requires |blocks| <= LOGSIZE && forall i :: 0 <= i < |blocks| ==> blocks[i] < UINT32
    ensures HeaderCount(WithHeader(prev, blocks)) == |blocks|
    ensures HeaderBlocks(WithHeader(prev, blocks)) == blocks
  {
    hide ToLe, FromLe, WithHeader, WordAt;
    HeaderPlaces(prev, blocks);
    CountRoundTrip(prev, blocks);
  }

  lemma CountRoundTrip(prev: Block, blocks: seq<nat>)
    requires |blocks| <= LOGSIZE
    ensures HeaderCount(WithHeader(prev, blocks)) == |blocks|
  {
    hide ToLe, FromLe, WithHeader;
    HeaderEnds(prev, blocks);
    FitsWord(|blocks|);
    LeRoundTrip(|blocks|, 4);
  }

  // ---- what a disk with a log means ---------------------------------------

  predicate Fits(lay: Layout, d: Disk) {
    1 <= lay.size && lay.start + lay.size <= |d| < UINT32 / 2
  }

  predicate Home(lay: Layout, d: Disk, b: nat) {
    b < |d| && !lay.InLog(b)
  }

  ghost predicate AllHome(lay: Layout, d: Disk, ws: seq<Write>) {
    forall i :: 0 <= i < |ws| ==> Home(lay, d, ws[i].block)
  }

  /** A set of blocks the log can hold: few enough, distinct, none of them in the log itself. */
  predicate Loggable(lay: Layout, d: Disk, blocks: seq<nat>) {
    && |blocks| <= lay.Capacity()
    && Distinct(blocks)
    && forall i :: 0 <= i < |blocks| ==> Home(lay, d, blocks[i])
  }

  predicate LogOk(lay: Layout, d: Disk) {
    Fits(lay, d) && HeaderCount(d[lay.start]) <= LOGSIZE && Loggable(lay, d, HeaderBlocks(d[lay.start]))
  }

  /** The durable content of home block `b`: its logged copy when the header lists it, else the block itself. */
  function Effective(lay: Layout, d: Disk, b: nat): Block
    requires LogOk(lay, d) && b < |d|
  {
    var blocks := HeaderBlocks(d[lay.start]);
    var i := IndexOf(blocks, b);
    if i < |blocks| then d[lay.Slot(i)] else d[b]
  }

  /** Both disks hold the same durable content in every home block. */
  ghost predicate SameEffect(lay: Layout, d: Disk, d': Disk)
    requires LogOk(lay, d) && LogOk(lay, d') && |d| == |d'|
  {
    forall b: nat :: Home(lay, d, b) ==> Effective(lay, d, b) == Effective(lay, d', b)
  }

  /** Home blocks `blocks[..k]` already hold their logged copies. */
  predicate Installed(lay: Layout, d: Disk, k: nat)
    requires LogOk(lay, d)
  {
    var blocks := HeaderBlocks(d[lay.start]);
    k <= |blocks| && forall i :: 0 <= i < k ==> blocks[i] < |d| && d[blocks[i]] == d[lay.Slot(i)]
  }

  // ---- effect of each kind of disk write ----------------------------------

  lemma IndexOfDistinct(s: seq<nat>, i: nat)
    requires Distinct(s) && i < |s|
    ensures IndexOf(s, s[i]) == i
  {
  }

  /** Filling a slot while the header is empty is invisible. */
  lemma SlotWriteKeeps(lay: Layout, d: Disk, i: nat, data: Block)
    requires LogOk(lay, d) && HeaderBlocks(d[lay.start]) == [] && i + 1 < lay.size
    ensures var d' := d[lay.Slot(i) := data];
      LogOk(lay, d') && HeaderBlocks(d'[lay.start]) == [] && SameEffect(lay, d, d')
      && forall b: nat :: Home(lay, d, b) ==> d'[b] == d[b]
  {
    hide HeaderBlocks, HeaderCount, WithHeader;
  }

  /** Writing a header block makes exactly the slots' contents durable. */
  lemma HeaderWriteCommits(lay: Layout, d: Disk, h: Block, blocks: seq<nat>)
    requires LogOk(lay, d) && Loggable(lay, d, blocks)
    requires HeaderCount(h) == |blocks| && HeaderBlocks(h) == blocks
    ensures var d' := d[lay.start := h];
      LogOk(lay, d') && HeaderBlocks(d'[lay.start]) == blocks
      && forall b: nat :: Home(lay, d, b) ==>
           d'[b] == d[b] &&
           Effective(lay, d', b) == if IndexOf(blocks, b) < |blocks| then d[lay.Slot(IndexOf(blocks, b))] else d[b]
  {
    hide HeaderBlocks, HeaderCount, WithHeader;
  }

  /** Copying a slot home is invisible, so it may be repeated or interrupted. */
  lemma InstallWriteKeeps(lay: Layout, d: Disk, i: nat)
    requires LogOk(lay, d) && i < |HeaderBlocks(d[lay.start])| && Installed(lay, d, i)
    ensures var blocks := HeaderBlocks(d[lay.start]); var d' := d[blocks[i] := d[lay.Slot(i)]];
      LogOk(lay, d') && HeaderBlocks(d'[lay.start]) == blocks && SameEffect(lay, d, d')
      && Installed(lay, d', i + 1)
      && (forall j :: 0 <= j < |blocks| ==> d'[lay.Slot(j)] == d[lay.Slot(j)])
  {
    hide HeaderBlocks, HeaderCount, WithHeader;
    var blocks := HeaderBlocks(d[lay.start]);
    assert Home(lay, d, blocks[i]);
    IndexOfDistinct(blocks, i);
  }

  lemma InstalledIsEffective(lay: Layout, d: Disk)
    requires LogOk(lay, d) && Installed(lay, d, |HeaderBlocks(d[lay.start])|)
    ensures forall b: nat :: Home(lay, d, b) ==> d[b] == Effective(lay, d, b)
  {
    hide HeaderBlocks, HeaderCount, WithHeader;
  }

  /** Emptying the header once everything is installed is invisible. */
  lemma ClearWriteKeeps(lay: Layout, d: Disk, h: Block)
    requires LogOk(lay, d) && Installed(lay, d, |HeaderBlocks(d[lay.start])|)
    requires HeaderCount(h) == 0
    ensures var d' := d[lay.start := h];
      LogOk(lay, d') && HeaderBlocks(d'[lay.start]) == [] && SameEffect(lay, d, d')
      && forall b: nat :: Home(lay, d, b) ==> d'[b] == Effective(lay, d, b)
  {
    hide HeaderBlocks, HeaderCount, WithHeader;
    HeaderWriteCommits(lay, d, h, []);
    InstalledIsEffective(lay, d);
  }

  // ---- recovery -----------------------------------------------------------

  /** The writes of install_trans for the given logged contents. */
  function Installs(blocks: seq<nat>, datas: seq<Block>): (ws: seq<Write>)
    requires |blocks| == |datas|
    ensures |ws| == |blocks|
  {
    seq(|blocks|, i requires 0 <= i < |blocks| => Write(blocks[i], datas[i]))
  }

  function SlotContents(lay: Layout, d: Disk, n: nat): (s: seq<Block>)
    requires Fits(lay, d) && n < lay.size
    ensures |s| == n
  {
    seq(n, i requires 0 <= i < n => d[lay.Slot(i)])
  }

  /** Every disk write of recover_from_log, in order. */
  function RecoverWrites(lay: Layout, d: Disk): (ws: seq<Write>)
    requires LogOk(lay, d)
    ensures |ws| == |HeaderBlocks(d[lay.start])| + 1 && InRange(d, ws)
  {
    var blocks := HeaderBlocks(d[lay.start]);
    Installs(blocks, SlotContents(lay, d, |blocks|)) + [Write(lay.start, WithHeader(d[lay.start], blocks[..0]))]
  }

  /** Disk `d'` as left by the first `k` writes of a recovery of `d`. */
  ghost predicate RecoveryStage(lay: Layout, d: Disk, k: nat, d': Disk)
    requires LogOk(lay, d)
  {
    var blocks := HeaderBlocks(d[lay.start]);
    && |d'| == |d| && LogOk(lay, d') && SameEffect(lay, d, d')
    && (k <= |blocks| ==>
         && d'[lay.start] == d[lay.start] && Installed(lay, d', k)
         && forall j :: 0 <= j < |blocks| ==> d'[lay.Slot(j)] == d[lay.Slot(j)])
    && (k > |blocks| ==>
         && HeaderBlocks(d'[lay.start]) == []
         && forall b: nat :: Home(lay, d, b) ==> d'[b] == Effective(lay, d, b))
  }

  lemma RecoveryInstallStep(lay: Layout, d: Disk, k: nat, p: Disk)
    requires LogOk(lay, d) && k < |HeaderBlocks(d[lay.start])| && RecoveryStage(lay, d, k, p)
    ensures RecoveryStage(lay, d, k + 1, p[HeaderBlocks(d[lay.start])[k] := d[lay.Slot(k)]])
  {
    hide HeaderBlocks, HeaderCount, WithHeader;
    InstallWriteKeeps(lay, p, k);
  }

  lemma RecoveryClearStep(lay: Layout, d: Disk, h: Block, p: Disk)
    requires LogOk(lay, d) && HeaderCount(h) == 0
    requires RecoveryStage(lay, d, |HeaderBlocks(d[lay.start])|, p)
    ensures RecoveryStage(lay, d, |HeaderBlocks(d[lay.start])| + 1, p[lay.start := h])
  {
    hide HeaderBlocks, HeaderCount, WithHeader;
    ClearWriteKeeps(lay, p, h);
  }

  /** A recovery stopped after `k` writes loses nothing and leaves a log that can be recovered again. */
  lemma {:induction false} RecoveryPrefix(lay: Layout, d: Disk, k: nat)
    requires LogOk(lay, d) && k <= |RecoverWrites(lay, d)|
    ensures InRange(d, RecoverWrites(lay, d)[..k])
    ensures RecoveryStage(lay, d, k, Perform(d, RecoverWrites(lay, d)[..k]))
  {
    hide HeaderBlocks, HeaderCount, WithHeader;
    var ws, blocks := RecoverWrites(lay, d), HeaderBlocks(d[lay.start]);
    if k > 0 {
      RecoveryPrefix(lay, d, k - 1);
      PerformNext(d, ws, k - 1);
      var p := Perform(d, ws[..k - 1]);
      if k <= |blocks| {
        assert ws[k - 1] == Write(blocks[k - 1], d[lay.Slot(k - 1)]);
        RecoveryInstallStep(lay, d, k - 1, p);
      } else {
        var h := WithHeader(d[lay.start], blocks[..0]);
        assert ws[k - 1] == Write(lay.start, h);
        HeaderRoundTrip(d[lay.start], blocks[..0]);
        RecoveryClearStep(lay, d, h, p);
      }
    }
  }

  /** recover_from_log run to its end. */
  function Recover(lay: Layout, d: Disk): Disk
    requires LogOk(lay, d)
  {
    Perform(d, RecoverWrites(lay, d))
  }

  /** Recovery attempts cut short: attempt `i` stops after `cuts[i]` writes (or completes). */
  function Attempts(lay: Layout, d: Disk, cuts: seq<nat>): (r: Disk)
    requires LogOk(lay, d)
    ensures LogOk(lay, r) && |r| == |d| && SameEffect(lay, d, r)
    decreases |cuts|
  {
    if cuts == [] then d
    else
      var ws := RecoverWrites(lay, d);
      var k := if cuts[0] <= |ws| then cuts[0] else |ws|;
      RecoveryPrefix(lay, d, k);
      Attempts(lay, Perform(d, ws[..k]), cuts[1..])
  }

  /** However often recovery is interrupted, once it completes each home block holds its durable content. */
  lemma RecoveryIsIdempotent(lay: Layout, d: Disk, cuts: seq<nat>)
    requires LogOk(lay, d)
    ensures var r := Recover(lay, Attempts(lay, d, cuts));
      && LogOk(lay, r) && HeaderBlocks(r[lay.start]) == []
      && forall b: nat :: Home(lay, d, b) ==> r[b] == Effective(lay, d, b)
  {
    var a := Attempts(lay, d, cuts);
    var ws := RecoverWrites(lay, a);
    RecoveryPrefix(lay, a, |ws|);
    assert ws[..|ws|] == ws;
  }

  // ---- commit -------------------------------------------------------------

  function SlotWrites(lay: Layout, datas: seq<Block>): (ws: seq<Write>)
    ensures |ws| == |datas|
  {
    seq(|datas|, i requires 0 <= i < |datas| => Write(lay.Slot(i), datas[i]))
  }

  predicate Committable(lay: Layout, d: Disk, blocks: seq<nat>, datas: seq<Block>) {
    && LogOk(lay, d) && HeaderBlocks(d[lay.start]) == []
    && Loggable(lay, d, blocks) && |datas| == |blocks|
  }

  /** Every disk write of commit, in order: slots, header, home blocks, empty header. */
  function CommitWrites(lay: Layout, d: Disk, blocks: seq<nat>, datas: seq<Block>): (ws: seq<Write>)
    requires Committable(lay, d, blocks, datas)
    ensures |ws| == 2 * |blocks| + 2 && InRange(d, ws)
  {
    var h := WithHeader(d[lay.start], blocks);
    
    SlotWrites(lay, datas) + [Write(lay.start, h)] +
    Installs(blocks, datas) + [Write(lay.start, WithHeader(h, blocks[..0]))]
  }

  /** Home block `b` after the whole transaction. */
  function After(d: Disk, blocks: seq<nat>, datas: seq<Block>, b: nat): Block
    requires |blocks| == |datas| && b < |d|
  {
    var i := IndexOf(blocks, b);
    if i < |blocks| then datas[i] else d[b]
  }

  ghost predicate CommitStage(lay: Layout, d: Disk, blocks: seq<nat>, datas: seq<Block>, k: nat, d': Disk)
    requires Committable(lay, d, blocks, datas)
  {
    var n := |blocks|;
    && |d'| == |d| && LogOk(lay, d')
    && (k <= n ==>
         && d'[lay.start] == d[lay.start]
         && (forall j :: 0 <= j < k ==> d'[lay.Slot(j)] == datas[j])
         && forall b: nat :: Home(lay, d, b) ==> d'[b] == d[b])
    && (n < k <= 2 * n + 1 ==>
         && d'[lay.start] == WithHeader(d[lay.start], blocks) && HeaderBlocks(d'[lay.start]) == blocks
         && (forall j :: 0 <= j < n ==> d'[lay.Slot(j)] == datas[j])
         && Installed(lay, d', k - n - 1))
    && (k > 2 * n + 1 ==> HeaderBlocks(d'[lay.start]) == [])
    && forall b: nat :: Home(lay, d, b) ==>
         Effective(lay, d', b) == if k <= n then d[b] else After(d, blocks, datas, b)
  }

  lemma CommitSlotStep(lay: Layout, d: Disk, blocks: seq<nat>, datas: seq<Block>, k: nat, p: Disk)
    requires Committable(lay, d, blocks, datas) && k < |blocks| && CommitStage(lay, d, blocks, datas, k, p)
    ensures CommitStage(lay, d, blocks, datas, k + 1, p[lay.Slot(k) := datas[k]])
  {
    hide HeaderBlocks, HeaderCount, WithHeader;
    SlotWriteKeeps(lay, p, k, datas[k]);
  }

  lemma CommitHeaderStep(lay: Layout, d: Disk, blocks: seq<nat>, datas: seq<Block>, p: Disk)
    requires Committable(lay, d, blocks, datas) && CommitStage(lay, d, blocks, datas, |blocks|, p)
    ensures CommitStage(lay, d, blocks, datas, |blocks| + 1, p[lay.start := WithHeader(d[lay.start], blocks)])
  {
    hide HeaderBlocks, HeaderCount, WithHeader;
    var h := WithHeader(d[lay.start], blocks);
    HeaderRoundTrip(d[lay.start], blocks);
    HeaderWriteCommits(lay, p, h, blocks);
  }

  lemma CommitInstallStep(lay: Layout, d: Disk, blocks: seq<nat>, datas: seq<Block>, i: nat, p: Disk)
    requires Committable(lay, d, blocks, datas) && i < |blocks|
    requires CommitStage(lay, d, blocks, datas, |blocks| + 1 + i, p)
    ensures CommitStage(lay, d, blocks, datas, |blocks| + 2 + i, p[blocks[i] := datas[i]])
  {
    hide HeaderBlocks, HeaderCount, WithHeader;
    InstallWriteKeeps(lay, p, i);
  }

  lemma CommitClearStep(lay: Layout, d: Disk, blocks: seq<nat>, datas: seq<Block>, h: Block, p: Disk)
    requires Committable(lay, d, blocks, datas) && HeaderCount(h) == 0
    requires CommitStage(lay, d, blocks, datas, 2 * |blocks| + 1, p)
    ensures CommitStage(lay, d, blocks, datas, 2 * |blocks| + 2, p[lay.start := h])
  {
    hide HeaderBlocks, HeaderCount, WithHeader;
    ClearWriteKeeps(lay, p, h);
  }

  lemma CommitWriteAt(lay: Layout, d: Disk, blocks: seq<nat>, datas: seq<Block>, k: nat)
    requires Committable(lay, d, blocks, datas) && k < 2 * |blocks| + 2
    ensures var n := |blocks|; var h := WithHeader(d[lay.start], blocks);
      CommitWrites(lay, d, blocks, datas)[k] ==
        if k < n then Write(lay.Slot(k), datas[k])
        else if k == n then Write(lay.start, h)
        else if k <= 2 * n then Write(blocks[k - n - 1], datas[k - n - 1])
        else Write(lay.start, WithHeader(h, blocks[..0]))
  {
    hide HeaderBlocks, HeaderCount, WithHeader;
  }

  lemma CommitStep(lay: Layout, d: Disk, blocks: seq<nat>, datas: seq<Block>, k: nat, p: Disk)
    requires Committable(lay, d, blocks, datas) && k < 2 * |blocks| + 2
    requires CommitStage(lay, d, blocks, datas, k, p)
    ensures var w := CommitWrites(lay, d, blocks, datas)[k];
      CommitStage(lay, d, blocks, datas, k + 1, p[w.block := w.data])
  {
    hide HeaderBlocks, HeaderCount, WithHeader, CommitStage, CommitWrites;
    var n, h := |blocks|, WithHeader(d[lay.start], blocks);
    CommitWriteAt(lay, d, blocks, datas, k);
    if k < n {
      CommitSlotStep(lay, d, blocks, datas, k, p);
    } else if k == n {
      CommitHeaderStep(lay, d, blocks, datas, p);
    } else if k <= 2 * n {
      CommitInstallStep(lay, d, blocks, datas, k - n - 1, p);
    } else {
      HeaderRoundTrip(h, blocks[..0]);
      CommitClearStep(lay, d, blocks, datas, WithHeader(h, blocks[..0]), p);
    }
  }

  ghost predicate CommitPoint(lay: Layout, d: Disk, blocks: seq<nat>, datas: seq<Block>, k: nat)
    requires Committable(lay, d, blocks, datas) && k <= 2 * |blocks| + 2
  {
    var ws := CommitWrites(lay, d, blocks, datas);
    InRange(d, ws[..k]) && CommitStage(lay, d, blocks, datas, k, Perform(d, ws[..k]))
  }

  lemma CommitNext(lay: Layout, d: Disk, blocks: seq<nat>, datas: seq<Block>, k: nat)
    requires Committable(lay, d, blocks, datas) && k <= 2 * |blocks| + 1 && CommitPoint(lay, d, blocks, datas, k)
    ensures CommitPoint(lay, d, blocks, datas, k + 1)
  {
    hide CommitStage;
    var ws := CommitWrites(lay, d, blocks, datas);
    PerformNext(d, ws, k);
    CommitStep(lay, d, blocks, datas, k, Perform(d, ws[..k]));
  }

  lemma {:induction false} CommitPrefix(lay: Layout, d: Disk, blocks: seq<nat>, datas: seq<Block>, k: nat)
    requires Committable(lay, d, blocks, datas) && k <= 2 * |blocks| + 2
    ensures CommitPoint(lay, d, blocks, datas, k)
  {
    hide HeaderBlocks, HeaderCount, WithHeader;
    if k > 0 {
      hide CommitPoint;
      CommitPrefix(lay, d, blocks, datas, k - 1);
      CommitNext(lay, d, blocks, datas, k - 1);
    }
  }

  /** Crash atomicity: stop commit after any `k` writes and recover, with any number of crashes during
      recovery itself. Home blocks are all as before when the first header write was not reached, and all
      as after the transaction otherwise. */
  lemma CrashAtomicity(lay: Layout, d: Disk, blocks: seq<nat>, datas: seq<Block>, k: nat, cuts: seq<nat>)
    requires Committable(lay, d, blocks, datas) && k <= 2 * |blocks| + 2
    ensures InRange(d, CommitWrites(lay, d, blocks, datas)[..k])
    ensures var crashed := Perform(d, CommitWrites(lay, d, blocks, datas)[..k]);
      && LogOk(lay, crashed)
      && var r := Recover(lay, Attempts(lay, crashed, cuts));
         && |r| == |d| && HeaderBlocks(r[lay.start]) == []
         && forall b: nat :: Home(lay, d, b) ==>
              r[b] == if k <= |blocks| then d[b] else After(d, blocks, datas, b)
  {
    hide HeaderBlocks, HeaderCount, WithHeader;
    CommitPrefix(lay, d, blocks, datas, k);
    RecoveryIsIdempotent(lay, Perform(d, CommitWrites(lay, d, blocks, datas)[..k]), cuts);
  }
}
