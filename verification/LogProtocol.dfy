/**
The write-ahead log as a protocol between any number of file system calls, the
buffer cache, the committing call, the disk and crashes.

One step is one section of code that the source makes atomic: a section under
log.lock or bcache.lock, or one disk write.  A crash may come before any step; it
keeps the disk and loses everything else.

The history variables say what the disk ought to hold: `hist` is every block write
any call ever made, in order, across crashes; `ended` the calls that reached
end_op; `durable` the calls whose commit group got its header onto the disk.
*/
module LogProtocol {
  import opened Blocks

  type OpId = int

  /**
  maxOp is MAXOPBLOCKS, what begin_op sets aside; budget is how many log_write calls a
  call really makes at most; capacity is LOGSIZE; size is log.size; homes are the
  blocks outside the log area, and after is the number that follows its last block.
  */
  datatype Config = Config(maxOp: nat, budget: nat, capacity: nat, size: nat, homes: set<int>, after: int)

  /** The on-disk log header and log blocks, and every block outside the log area. */
  datatype Disk = Disk(head: seq<int>, log: seq<Block>, home: map<int, Block>, after: int)

  datatype Holder = Call(op: OpId) | Other

  /** A cached block: B_DIRTY, B_BUSY with its holder, and "changed but not yet logged". */
  datatype Buf = Buf(data: Block, dirty: bool, busy: Option<Holder>, touched: bool)

  datatype Write = Write(op: OpId, block: int, data: Block)

  /** log_write calls a running call has made; the block of one that is past its tests. */
  datatype Progress = Progress(used: nat, logging: Option<int>)

  datatype Phase =
    | Idle
    | WritingLog(tail: nat)
    | WritingHead
    | Installing(tail: nat)
    | Finishing
    | Booting
    | Recovering(tail: nat)

  datatype State = State(
    disk: Disk,
    phase: Phase,
    lh: seq<int>,
    outstanding: nat,
    committing: bool,
    cache: map<int, Buf>,
    active: map<OpId, Progress>, // calls between begin_op and end_op
    panicked: bool,
    nextOp: int,
    hist: seq<Write>,
    group: set<OpId>,           // calls that ended since the last commit
    ended: set<OpId>,
    durable: set<OpId>)

  /**
  The log area is its header and nothing else; or it holds LOGSIZE blocks besides, and either
  calls keep to MAXOPBLOCKS or there is one block more for every call that begin_op admits.
  */
  ghost predicate Sound(c: Config)
  {
    || c.size == 1
    || (c.size > c.capacity && (c.budget <= c.maxOp || c.capacity < (c.size - c.capacity + 1) * c.maxOp))
  }

  // ---------------------------------------------------------------- meaning

  /** The blocks after a sequence of writes. */
  ghost function Apply(home: map<int, Block>, ws: seq<Write>): map<int, Block>
  {
    if ws == [] then home
    else Apply(home, ws[..|ws| - 1])[ws[|ws| - 1].block := ws[|ws| - 1].data]
  }

  /** The writes of the calls in s, in order. */
  ghost function Only(ws: seq<Write>, s: set<OpId>): seq<Write>
  {
    if ws == [] then []
    else
      var rest := Only(ws[..|ws| - 1], s);
      if ws[|ws| - 1].op in s then rest + [ws[|ws| - 1]] else rest
  }

  /** What the disk should hold once exactly the calls in s have happened. */
  ghost function Expected(init: map<int, Block>, s: State, ops: set<OpId>): map<int, Block>
  {
    Apply(init, Only(s.hist, ops))
  }

  /** The number of the block at log.start + t + 1, for a t that lies past the log area. */
  function Past(d: Disk, t: int): int
  {
    d.after + t - |d.log|
  }

  /** There is a block at log.start + t + 1, in the log area or after it. */
  ghost predicate SlotThere(d: Disk, t: nat)
  {
    t < |d.log| || Past(d, t) in d.home
  }

  /** The home blocks that a full, uninterrupted recovery would leave, having copied the first n. */
  ghost function Replay(d: Disk, n: nat): map<int, Block>
    requires n <= |d.head|
  {
    if n == 0 then d.home
    else
      var home := Replay(d, n - 1);
      if n - 1 < |d.log| then home[d.head[n - 1] := d.log[n - 1]]
      else if Past(d, n - 1) in home then home[d.head[n - 1] := home[Past(d, n - 1)]]
      else home
  }

  ghost predicate LogFits(d: Disk)
  {
    |d.head| <= |d.log|
  }

  ghost function Recovered(d: Disk): map<int, Block>
  {
    Replay(d, |d.head|)
  }

  /** The contents bread would return. */
  ghost function View(s: State, b: int): Block
  {
    if b in s.cache then s.cache[b].data
    else if b in s.disk.home then s.disk.home[b]
    else []
  }

  // ---------------------------------------------------------------- steps

  ghost predicate Init(c: Config, init: map<int, Block>, s: State)
  {
    && init.Keys == c.homes
    && s.disk.home == init && s.disk.head == [] && |s.disk.log| + 1 == c.size && s.disk.after == c.after
    && s.phase == Idle && s.lh == [] && s.outstanding == 0 && !s.committing
    && s.cache == map[] && s.active == map[] && !s.panicked
    && s.nextOp == 0 && s.hist == [] && s.group == {} && s.ended == {} && s.durable == {}
  }

  ghost predicate Running(s: State)
  {
    !s.panicked && !s.phase.Booting? && !s.phase.Recovering?
  }

  /** begin_op gets past its two tests. */
  ghost predicate BeginOp(c: Config, s: State, s': State)
  {
    && Running(s)
    && !s.committing
    && |s.lh| + (s.outstanding + 1) * c.maxOp <= c.capacity
    && s' == s.(outstanding := s.outstanding + 1,
                active := s.active[s.nextOp := Progress(0, None)],
                nextOp := s.nextOp + 1)
  }

  /** bread of a block, by a call inside a transaction or by anyone else. */
  ghost predicate Bread(c: Config, s: State, s': State, b: int, who: Holder)
  {
    && Running(s)
    && b in c.homes && b in s.disk.home
    && (who.Call? ==> who.op in s.active)
    && (b in s.cache ==> s.cache[b].busy.None?)
    && s' == s.(cache := s.cache[b :=
        if b in s.cache then s.cache[b].(busy := Some(who))
        else Buf(s.disk.home[b], false, Some(who), false)])
  }

  /** brelse.  A call that changed the buffer has passed it to log_write first. */
  ghost predicate Brelse(s: State, s': State, b: int)
  {
    && Running(s)
    && b in s.cache && s.cache[b].busy.Some? && !s.cache[b].touched
    && s' == s.(cache := s.cache[b := s.cache[b].(busy := None)])
  }

  /** bget recycles a buffer that is neither busy nor dirty. */
  ghost predicate Evict(s: State, s': State, b: int)
  {
    && Running(s)
    && b in s.cache && s.cache[b].busy.None? && !s.cache[b].dirty
    && s' == s.(cache := s.cache - {b})
  }

  /** A call changes the data of a buffer it holds. */
  ghost predicate Modify(s: State, s': State, op: OpId, b: int, data: Block)
  {
    && Running(s)
    && op in s.active
    && b in s.cache && s.cache[b].busy == Some(Call(op))
    && s' == s.(cache := s.cache[b := s.cache[b].(data := data, touched := true)],
                hist := s.hist + [Write(op, b, data)])
  }

  ghost predicate LogFull(c: Config, s: State)
  {
    |s.lh| >= c.capacity || |s.lh| + 1 >= c.size
  }

  /** The tests log_write makes before it takes log.lock, by a call with budget left. */
  ghost predicate LogCheck(c: Config, s: State, s': State, op: OpId, b: int)
  {
    && Running(s)
    && op in s.active && s.active[op].logging.None? && s.active[op].used < c.budget
    && b in s.cache && s.cache[b].busy == Some(Call(op))
    && if LogFull(c, s) || s.outstanding < 1 then s' == s.(panicked := true)
       else s' == s.(active := s.active[op := s.active[op].(logging := Some(b))])
  }

  /** The rest of log_write.  Nothing here looks at lh.n again: the list may outgrow LOGSIZE. */
  ghost predicate LogAppend(s: State, s': State, op: OpId, b: int)
  {
    && Running(s)
    && op in s.active && s.active[op].logging == Some(b)
    && b in s.cache && s.cache[b].busy == Some(Call(op))
    && s' == s.(lh := if b in s.lh then s.lh else s.lh + [b],
                cache := s.cache[b := s.cache[b].(dirty := true, touched := false)],
                active := s.active[op := Progress(s.active[op].used + 1, None)])
  }

  /** end_op up to the release of log.lock.  The call has given back its buffers. */
  ghost predicate EndOp(s: State, s': State, op: OpId)
  {
    && Running(s)
    && op in s.active
    && s.outstanding >= 1
    && (forall b :: b in s.cache ==> s.cache[b].busy != Some(Call(op)))
    && var t := s.(outstanding := s.outstanding - 1,
                   active := s.active - {op},
                   group := s.group + {op},
                   ended := s.ended + {op});
       if s.committing then s' == t.(panicked := true)
       else if t.outstanding > 0 then s' == t
       else if s.lh == [] then
         // commit() finds nothing to write
         s' == t.(committing := true, phase := Finishing, durable := s.durable + t.group, group := {})
       else s' == t.(committing := true, phase := WritingLog(0))
  }

  ghost predicate NotBusy(s: State, b: int)
  {
    b in s.cache ==> s.cache[b].busy.None?
  }

  /** Block b gets new data, in the cache and by bwrite on the disk. */
  ghost function Bwrite(s: State, b: int, data: Block): State
  {
    s.(disk := s.disk.(home := s.disk.home[b := data]), cache := s.cache[b := Buf(data, false, None, false)])
  }

  /**
  One turn of write_log's loop, or its exit.  Nothing in the loop looks at log.size: past
  the log area the block it overwrites is a home block.
  */
  ghost predicate WriteLog(s: State, s': State)
  {
    && Running(s)
    && s.phase.WritingLog?
    && var t := s.phase.tail;
       if t < |s.lh| then
         && (s.lh[t] in s.cache || s.lh[t] in s.disk.home)
         && NotBusy(s, s.lh[t])
         && if t < |s.disk.log| then
              s' == s.(disk := s.disk.(log := s.disk.log[t := View(s, s.lh[t])]), phase := WritingLog(t + 1))
            else if SlotThere(s.disk, t) then
              && Past(s.disk, t) != s.lh[t] && NotBusy(s, Past(s.disk, t))
              && s' == Bwrite(s, Past(s.disk, t), View(s, s.lh[t])).(phase := WritingLog(t + 1))
            else s' == s.(panicked := true)
       else s' == s.(phase := WritingHead)
  }

  /** The write_head that commits the group. */
  ghost predicate WriteHead(s: State, s': State)
  {
    && Running(s)
    && s.phase.WritingHead?
    && s' == s.(disk := s.disk.(head := s.lh),
                phase := Installing(0),
                durable := s.durable + s.group,
                group := {})
  }

  /** One turn of install_trans after a commit, or its exit and the second write_head. */
  ghost predicate Install(s: State, s': State)
  {
    && Running(s)
    && s.phase.Installing?
    && var t := s.phase.tail;
       if t < |s.lh| then
         && NotBusy(s, s.lh[t])
         && if t < |s.disk.log| then s' == Bwrite(s, s.lh[t], s.disk.log[t]).(phase := Installing(t + 1))
            else if SlotThere(s.disk, t) then
              && Past(s.disk, t) != s.lh[t] && NotBusy(s, Past(s.disk, t))
              && s' == Bwrite(s, s.lh[t], View(s, Past(s.disk, t))).(phase := Installing(t + 1))
            else s' == s.(panicked := true)
       else s' == s.(lh := [], disk := s.disk.(head := []), phase := Finishing)
  }

  /** end_op clears committing after commit returns. */
  ghost predicate FinishCommit(s: State, s': State)
  {
    && Running(s)
    && s.phase.Finishing?
    && s' == s.(committing := false, phase := Idle)
  }

  /** Power loss, in any state, recovery included: only the disk is left. */
  ghost predicate Crash(s: State, s': State)
  {
    s' == s.(phase := Booting, lh := [], outstanding := 0, committing := false,
             cache := map[], active := map[], panicked := false, group := {})
  }

  ghost predicate ReadHead(s: State, s': State)
  {
    && s.phase.Booting?
    && s' == s.(lh := s.disk.head, phase := Recovering(0))
  }

  /** One turn of install_trans during recovery, or its exit and the write_head that clears the log. */
  ghost predicate Recover(s: State, s': State)
  {
    && !s.panicked
    && s.phase.Recovering?
    && var t := s.phase.tail;
       if t < |s.lh| then
         if t < |s.disk.log| then
           s' == s.(disk := s.disk.(home := s.disk.home[s.lh[t] := s.disk.log[t]]), phase := Recovering(t + 1))
         else if SlotThere(s.disk, t) then
           && Past(s.disk, t) != s.lh[t]
           && s' == s.(disk := s.disk.(home := s.disk.home[s.lh[t] := s.disk.home[Past(s.disk, t)]]),
                       phase := Recovering(t + 1))
         else s' == s.(panicked := true)
       else s' == s.(lh := [], disk := s.disk.(head := []), phase := Idle)
  }

  datatype Step =
    | StBegin
    | StBread(b: int, who: Holder)
    | StBrelse(b: int)
    | StEvict(b: int)
    | StModify(op: OpId, b: int, data: Block)
    | StLogCheck(op: OpId, b: int)
    | StLogAppend(op: OpId, b: int)
    | StEnd(op: OpId)
    | StWriteLog | StWriteHead | StInstall | StFinish
    | StCrash | StReadHead | StRecover

  ghost predicate Next(c: Config, s: State, s': State, step: Step)
  {
    match step
    case StBegin => BeginOp(c, s, s')
    case StBread(b, who) => Bread(c, s, s', b, who)
    case StBrelse(b) => Brelse(s, s', b)
    case StEvict(b) => Evict(s, s', b)
    case StModify(op, b, data) => Modify(s, s', op, b, data)
    case StLogCheck(op, b) => LogCheck(c, s, s', op, b)
    case StLogAppend(op, b) => LogAppend(s, s', op, b)
    case StEnd(op) => EndOp(s, s', op)
    case StWriteLog => WriteLog(s, s')
    case StWriteHead => WriteHead(s, s')
    case StInstall => Install(s, s')
    case StFinish => FinishCommit(s, s')
    case StCrash => Crash(s, s')
    case StReadHead => ReadHead(s, s')
    case StRecover => Recover(s, s')
  }

  /** A run: states joined by steps, from an initial state whose home blocks are init. */
  ghost predicate IsRun(c: Config, init: map<int, Block>, run: seq<State>, steps: seq<Step>)
  {
    && |run| == |steps| + 1
    && Init(c, init, run[0])
    && forall i :: 0 <= i < |steps| ==> Next(c, run[i], run[i + 1], steps[i])
  }
}
