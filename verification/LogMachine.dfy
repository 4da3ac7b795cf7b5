/** Every interleaving of file-system operations, the group commit (one disk write at a time), buffer
    recycling, crashes and recovery. A locked region of the source is one step. */
module LogMachine {
  import opened Wrappers
  import opened Params
  import opened Storage
  import opened Recovery
  import opened LogCore

  /** A cache slot holding some block. The source's refcnt is the sum of both counters. */
  datatype Buf = Buf(valid: bool, data: Block, holders: nat, pins: nat, dirty: bool) {
    function RefCount(): nat { holders + pins }
  }

  /** Operation `op` wrote `data` to home block `block`. */
  datatype Event = Event(op: nat, block: nat, data: Block)

  datatype Phase =
    | Running
    | CommitSlot(t: nat) | CommitHead | Install(t: nat) | ClearHead | EndCommit
    | Boot | RecInstall(t: nat) | RecClear
  {
    predicate Up() { !Boot? && !RecInstall? && !RecClear? }
    predicate Unlogged() { Running? || CommitSlot? || CommitHead? }
  }

  /** `group` holds the events since the last header write, `groups` the committed ones,
      `history` everything ever written, lost or not. */
  datatype State = State(disk: Disk, cache: map<nat, Buf>, tx: Tx, phase: Phase,
                         group: seq<Event>, groups: seq<seq<Event>>, history: seq<Event>)

  datatype Step =
    | Begin
    | Update(i: nat, block: nat, data: Block)
    | End(i: nat)
    | Get(block: nat) | Load(block: nat) | Put(block: nat) | Evict(block: nat)
    | Advance
    | Crash

  function Blank(): Block { seq(BSIZE, _ => 0) }

  /** The slot holding `b`, or a recycled one: flags 0, no references. */
  function BufOf(s: State, b: nat): Buf {
    if b in s.cache then s.cache[b] else Buf(false, Blank(), 0, 0, false)
  }

  /** What block_read returns: the cached copy, or the disk's. */
  function Read(disk: Disk, cache: map<nat, Buf>, b: nat): Block
    requires b < |disk|
  {
    if b in cache && cache[b].valid then cache[b].data else disk[b]
  }

  function Content(s: State, b: nat): Block
    requires b < |s.disk|
  {
    Read(s.disk, s.cache, b)
  }

  /** block_read, overwrite, block_write, block_release. B_DIRTY is never cleared. */
  function WriteBlock(s: State, b: nat, data: Block): State
    requires b < |s.disk|
  {
    s.(disk := s.disk[b := data], cache := s.cache[b := BufOf(s, b).(valid := true, data := data, dirty := true)])
  }

  function Unpin(s: State, b: nat): State {
    if b in s.cache && s.cache[b].pins > 0 then
      s.(cache := s.cache[b := s.cache[b].(pins := s.cache[b].pins - 1)])
    else s
  }

  function HeaderFor(s: State, lay: Layout, blocks: seq<nat>): Block
    requires lay.start < |s.disk| && |blocks| <= LOGSIZE
  {
    WithHeader(Content(s, lay.start), blocks)
  }

  /** One user or environment step on the cache; None when it is not possible. */
  function DoCache(lay: Layout, s: State, step: Step): Option<State>
    requires step.Get? || step.Load? || step.Put? || step.Evict?
  {
    var b := step.block;
    if b >= |s.disk| || lay.InLog(b) || !s.phase.Up() then None
    else match step
      case Get(_) =>
        Some(s.(cache := s.cache[b := BufOf(s, b).(holders := BufOf(s, b).holders + 1)]))
      case Load(_) =>
        if b in s.cache && s.cache[b].holders > 0 && !s.cache[b].valid then
          Some(s.(cache := s.cache[b := s.cache[b].(valid := true, data := s.disk[b])]))
        else None
      case Put(_) =>
        if b in s.cache && s.cache[b].holders > 0 then
          Some(s.(cache := s.cache[b := s.cache[b].(holders := s.cache[b].holders - 1)]))
        else None
      case Evict(_) =>
        if b in s.cache && s.cache[b].RefCount() == 0 && !s.cache[b].dirty then
          Some(s.(cache := s.cache - {b}))
        else None
  }

  /** A held, loaded buffer is overwritten and passed to log_write, which pins it when it is new to the log. */
  function DoUpdate(lay: Layout, budget: nat, s: State, i: nat, b: nat, data: Block): Option<State> {
    if b in s.cache && b < |s.disk| && !lay.InLog(b) && s.cache[b].holders > 0 && s.cache[b].valid then
      match DoTx(lay.size, budget, s.tx, TWrite(i, b))
      case None => None
      case Some(tx') =>
        var pin := if |tx'.log.lh| > |s.tx.log.lh| then 1 else 0;
        var e := Event(s.tx.ops[i].id, b, data);
        Some(s.(cache := s.cache[b := s.cache[b].(data := data, pins := s.cache[b].pins + pin)], tx := tx',
                group := s.group + [e], history := s.history + [e]))
    else None
  }

  /** The next atomic step of commit or of recover_from_log. */
  function DoAdvance(lay: Layout, s: State): Option<State>
    requires LogOk(lay, s.disk)
  {
    var lh := s.tx.log.lh;
    match s.phase
    case Running => None
    case CommitSlot(t) =>
      if t >= |lh| then Some(s.(phase := CommitHead))
      else if lay.Slot(t) < |s.disk| && lh[t] < |s.disk| then
        Some(WriteBlock(s, lay.Slot(t), Content(s, lh[t])).(phase := CommitSlot(t + 1)))
      else None
    case CommitHead =>
      if |lh| > LOGSIZE then None
      else Some(WriteBlock(s, lay.start, HeaderFor(s, lay, lh))
                .(phase := Install(0), group := [], groups := s.groups + [s.group]))
    case Install(t) =>
      if t >= |lh| then Some(s.(phase := ClearHead))
      else if lay.Slot(t) < |s.disk| && lh[t] < |s.disk| then
        Some(Unpin(WriteBlock(s, lh[t], Content(s, lay.Slot(t))), lh[t]).(phase := Install(t + 1)))
      else None
    case ClearHead =>
      (match DoTx(lay.size, 0, s.tx, TClear)
       case None => None
       case Some(tx') =>
         Some(WriteBlock(s, lay.start, HeaderFor(s, lay, lh[..0])).(tx := tx', phase := EndCommit)))
    case EndCommit =>
      (match DoTx(lay.size, 0, s.tx, TDone)
       case None => None
       case Some(tx') => Some(s.(tx := tx', phase := Running)))
    case Boot =>
      Some(s.(tx := s.tx.(log := EMPTY_LOG.(lh := HeaderBlocks(s.disk[lay.start]))), phase := RecInstall(0)))
    case RecInstall(t) =>
      if t >= |lh| then Some(s.(phase := RecClear))
      else if lay.Slot(t) < |s.disk| && lh[t] < |s.disk| then
        Some(WriteBlock(s, lh[t], Content(s, lay.Slot(t))).(phase := RecInstall(t + 1)))
      else None
    case RecClear =>
      Some(WriteBlock(s, lay.start, HeaderFor(s, lay, lh[..0])).(tx := s.tx.(log := EMPTY_LOG), phase := Running))
  }

  /** Power loss: memory is gone, the disk stays. */
  function DoCrash(s: State): State {
    s.(cache := map[], tx := Tx(EMPTY_LOG, [], s.tx.nextId), phase := Boot, group := [])
  }

  function Do(lay: Layout, budget: nat, s: State, step: Step): Option<State>
    requires LogOk(lay, s.disk)
  {
    match step
    case Begin =>
      if !s.phase.Up() then None
      else (match DoTx(lay.size, budget, s.tx, TBegin)
            case None => None
            case Some(tx') => Some(s.(tx := tx')))
    case Update(i, b, data) => if s.phase.Up() then DoUpdate(lay, budget, s, i, b, data) else None
    case End(i) =>
      if !s.phase.Up() then None
      else (match DoTx(lay.size, budget, s.tx, TEnd(i))
            case None => None
            case Some(tx') =>
              Some(s.(tx := tx', phase := if !tx'.log.committing then s.phase
                                          else if tx'.log.lh == [] then EndCommit else CommitSlot(0))))
    case Get(_) => DoCache(lay, s, step)
    case Load(_) => DoCache(lay, s, step)
    case Put(_) => DoCache(lay, s, step)
    case Evict(_) => DoCache(lay, s, step)
    case Advance => DoAdvance(lay, s)
    case Crash => Some(DoCrash(s))
  }
}
