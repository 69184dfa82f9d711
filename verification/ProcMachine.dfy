/**
Processes, the scheduler, sleep and wakeup: proc.c over the spin locks of spinlock.c, as a
machine whose steps are the code between two points where another CPU can interfere.
Any number of process slots, CPUs, other spin locks and sleep channels.

Each process slot has a kernel thread and each CPU a scheduler thread; a CPU executes the
thread it is on, and only `swtch` moves it to another.  ptable.lock records the CPU that
holds it, as the source does, so it can pass from thread to thread across `swtch`.
*/
module ProcMachine {
  datatype ProcState = Unused | Embryo | Sleeping | Runnable | Running | Zombie

  /** What a process sleeps on: its own address (in wait) or some other object. */
  datatype Chan = NoChan | Self(p: int) | Obj(ch: int)

  /** struct proc; parent is -1 for the null pointer. */
  datatype Proc = Proc(state: ProcState, pid: int, parent: int, chan: Chan, kstack: bool, killed: bool)

  /** struct cpu: the thread it executes, `proc` (-1 for null), pushcli depth, interrupt flag. */
  datatype Cpu = Cpu(thread: int, cur: int, ncli: int, ief: bool, intena: bool)

  /** Where a thread that called swtch goes on when it is resumed. */
  datatype Cont = AfterYield | AfterFork | AfterSleep(l: int) | AfterWait | AfterExit | InSched

  /** Program points.  Those for which HasLock holds lie inside ptable.lock. */
  datatype Pc =
    | Code
    | Spin(ch: int)
    | Relock(want: int)
    | Waking(ch: int)
    | Unlocking
    | Killing(pid: int)
    | Yielding
    | Falling(ch: int)
    | Sleepy(ch: int, back: int)
    | Tidy(back: int)
    | Allocating
    | ForkReady
    | Exiting
    | ExitWoke
    | ExitGiven
    | Scanning
    | WaitBack
    | Switching(k: Cont)
    | SchedScan
    | SchedGo(p: int)
    | Resched
    | Panic
    | Off(k: Cont)
    | Dead

  /** A kernel thread: program point, CPU it is on (-1: none), the other spin lock it holds
      (-1: none), channels whose condition it has made true without having run wakeup1 yet,
      the slot fork is filling (-1: none), and sched's saved intena. */
  datatype Thread = Thread(pc: Pc, at: int, l: int, dirty: set<int>, np: int, saved: bool)

  /** lks gives each other lock its CPU (-1: free); conds the condition that the sleepers on a
      channel wait for, and guard the lock under which that condition is tested and changed. */
  datatype State = State(procs: seq<Proc>, threads: seq<Thread>, cpus: seq<Cpu>, lock: int,
                         lks: map<int, int>, conds: map<int, bool>, guard: map<int, int>, nextpid: int)

  const INIT := 0

  predicate HasLock(pc: Pc)
  {
    !(pc.Code? || pc.Spin? || pc.Relock? || pc.Off? || pc.Dead?)
  }

  predicate IsOff(pc: Pc)
  {
    pc.Off? || pc.Dead?
  }

  predicate Alive(st: ProcState)
  {
    st.Sleeping? || st.Runnable? || st.Running?
  }

  // ---------------------------------------------------------------- table scans

  function Wake(p: Proc, chan: Chan): Proc
  {
    if p.state.Sleeping? && p.chan == chan then p.(state := Runnable) else p
  }

  /** wakeup1 over the whole table. */
  function Woken(procs: seq<Proc>, chan: Chan): (r: seq<Proc>)
    ensures |r| == |procs|
    ensures forall i :: 0 <= i < |procs| ==> r[i] == Wake(procs[i], chan)
  {
    seq(|procs|, i requires 0 <= i < |procs| => Wake(procs[i], chan))
  }

  function Adopt(p: Proc, me: int): Proc
  {
    if p.parent == me then p.(parent := INIT) else p
  }

  /** me's children given to init, which is woken when one of them is a zombie. */
  ghost function Reparented(procs: seq<Proc>, me: int): (r: seq<Proc>)
    ensures |r| == |procs|
  {
    var given := seq(|procs|, i requires 0 <= i < |procs| => Adopt(procs[i], me));
    if exists i :: 0 <= i < |procs| && procs[i].parent == me && procs[i].state.Zombie?
    then Woken(given, Self(INIT)) else given
  }

  function Struck(p: Proc): Proc
  {
    p.(killed := true, state := if p.state.Sleeping? then Runnable else p.state)
  }

  // ---------------------------------------------------------------- spin locks

  /** pushcli. */
  function Push(u: Cpu): Cpu
  {
    u.(ncli := u.ncli + 1, ief := false, intena := if u.ncli == 0 then u.ief else u.intena)
  }

  /** popcli. */
  function Pop(u: Cpu): Cpu
  {
    u.(ncli := u.ncli - 1, ief := u.ief || (u.ncli == 1 && u.intena))
  }

  ghost predicate Here(s: State, c: int)
  {
    0 <= c < |s.cpus| && 0 <= s.cpus[c].thread < |s.threads|
  }

  ghost function Me(s: State, c: int): Thread
    requires Here(s, c)
  {
    s.threads[s.cpus[c].thread]
  }

  /** CPU c's thread is a process. */
  ghost predicate HereProc(s: State, c: int)
  {
    Here(s, c) && s.cpus[c].thread < |s.procs|
  }

  ghost function Set(s: State, c: int, th: Thread): State
    requires Here(s, c)
  {
    s.(threads := s.threads[s.cpus[c].thread := th])
  }

  ghost function Go(s: State, c: int, pc: Pc): State
    requires Here(s, c)
  {
    Set(s, c, Me(s, c).(pc := pc))
  }

  /** acquire(&ptable.lock) succeeds. */
  ghost function Acquire(s: State, c: int, pc: Pc): State
    requires Here(s, c)
  {
    Go(s, c, pc).(lock := c, cpus := s.cpus[c := Push(s.cpus[c])])
  }

  ghost function Release(s: State, c: int, pc: Pc): State
    requires Here(s, c)
  {
    Go(s, c, pc).(lock := -1, cpus := s.cpus[c := Pop(s.cpus[c])])
  }

  /** CPU c's own process record. */
  ghost function SetProc(s: State, p: int, pr: Proc): State
    requires 0 <= p < |s.procs|
  {
    s.(procs := s.procs[p := pr])
  }

  /** Between system-call steps: no lock held, no fork under way. */
  ghost predicate Plain(th: Thread)
  {
    th.pc.Code? && th.l == -1 && th.np == -1
  }

  // ---------------------------------------------------------------- other locks, wakeup

  /** sti, cli, or the return from an interrupt. */
  ghost predicate Interrupts(s: State, s': State, c: int, b: bool)
  {
    && Here(s, c) && Me(s, c).pc.Code? && s.cpus[c].ncli == 0
    && s' == s.(cpus := s.cpus[c := s.cpus[c].(ief := b)])
  }

  ghost predicate LkAcquire(s: State, s': State, c: int, l: int)
  {
    && Here(s, c) && Me(s, c).pc.Code? && Me(s, c).l == -1
    && l >= 0 && l in s.lks && s.lks[l] == -1
    && s' == Set(s, c, Me(s, c).(l := l)).(lks := s.lks[l := c], cpus := s.cpus[c := Push(s.cpus[c])])
  }

  ghost predicate LkRelease(s: State, s': State, c: int)
  {
    && Here(s, c) && Me(s, c).pc.Code? && Me(s, c).l != -1
    && s' == Set(s, c, Me(s, c).(l := -1)).(lks := s.lks[Me(s, c).l := -1], cpus := s.cpus[c := Pop(s.cpus[c])])
  }

  /** Change the condition of channel ch, under its lock. */
  ghost predicate Change(s: State, s': State, c: int, ch: int, v: bool)
  {
    && Here(s, c) && Me(s, c).pc.Code? && Me(s, c).l != -1
    && ch in s.conds && ch in s.guard && s.guard[ch] == Me(s, c).l
    && s' == Set(s, c, Me(s, c).(dirty := Me(s, c).dirty + if v then {ch} else {})).(conds := s.conds[ch := v])
  }

  /** wakeup, with or without the channel's lock held. */
  ghost predicate WakeStart(s: State, s': State, c: int, ch: int)
  {
    && Here(s, c) && Me(s, c).pc.Code? && s.lock == -1
    && s' == Acquire(s, c, Waking(ch))
  }

  ghost predicate WakeScan(s: State, s': State, c: int)
  {
    && Here(s, c) && Me(s, c).pc.Waking?
    && var ch := Me(s, c).pc.ch;
       s' == Set(s, c, Me(s, c).(pc := Unlocking, dirty := Me(s, c).dirty - {ch})).(procs := Woken(s.procs, Obj(ch)))
  }

  /** The release that ends a critical section; also forkret's and the end of yield. */
  ghost predicate Unlock(s: State, s': State, c: int)
  {
    Here(s, c) && Me(s, c).pc.Unlocking? && s' == Release(s, c, Code)
  }

  ghost predicate KillStart(s: State, s': State, c: int, pid: int)
  {
    HereProc(s, c) && Plain(Me(s, c)) && s.lock == -1 && s' == Acquire(s, c, Killing(pid))
  }

  ghost predicate KillScan(s: State, s': State, c: int, p: int)
  {
    && Here(s, c) && Me(s, c).pc.Killing?
    && (if exists q :: 0 <= q < |s.procs| && s.procs[q].pid == Me(s, c).pc.pid
        then && 0 <= p < |s.procs| && s.procs[p].pid == Me(s, c).pc.pid
             && (forall q :: 0 <= q < p ==> s.procs[q].pid != Me(s, c).pc.pid)
             && s' == Go(s, c, Unlocking).(procs := s.procs[p := Struck(s.procs[p])])
        else s' == Go(s, c, Unlocking))
  }

  // ---------------------------------------------------------------- yield, sleep

  /** A timer interrupt, which the hardware takes only where interrupts are on, and turns them off. */
  ghost predicate YieldStart(s: State, s': State, c: int)
  {
    && HereProc(s, c) && Me(s, c).pc.Code? && s.cpus[c].ief && s.lock == -1
    && s' == Go(s, c, Yielding).(lock := c, cpus := s.cpus[c := Push(s.cpus[c].(ief := false))])
  }

  ghost predicate YieldSet(s: State, s': State, c: int)
  {
    && HereProc(s, c) && Me(s, c).pc.Yielding?
    && var p := s.cpus[c].thread;
       s' == SetProc(Go(s, c, Switching(AfterYield)), p, s.procs[p].(state := Runnable))
  }

  /** The loop around sleep has found its condition false. */
  ghost predicate SleepStart(s: State, s': State, c: int, ch: int)
  {
    && HereProc(s, c) && Me(s, c).pc.Code? && Me(s, c).l != -1
    && ch in s.conds && ch in s.guard && s.guard[ch] == Me(s, c).l && !s.conds[ch]
    && s' == Go(s, c, Spin(ch))
  }

  ghost predicate SleepLock(s: State, s': State, c: int)
  {
    && HereProc(s, c) && Me(s, c).pc.Spin? && s.lock == -1
    && s' == Acquire(s, c, Falling(Me(s, c).pc.ch))
  }

  ghost predicate SleepRelease(s: State, s': State, c: int)
  {
    && HereProc(s, c) && Me(s, c).pc.Falling? && Me(s, c).l != -1
    && var l := Me(s, c).l;
       s' == Set(s, c, Me(s, c).(pc := Sleepy(Me(s, c).pc.ch, l), l := -1))
             .(lks := s.lks[l := -1], cpus := s.cpus[c := Pop(s.cpus[c])])
  }

  ghost predicate SleepSet(s: State, s': State, c: int)
  {
    && HereProc(s, c) && Me(s, c).pc.Sleepy?
    && var p := s.cpus[c].thread;
       s' == SetProc(Go(s, c, Switching(AfterSleep(Me(s, c).pc.back))), p,
                     s.procs[p].(chan := Obj(Me(s, c).pc.ch), state := Sleeping))
  }

  ghost predicate SleepTidy(s: State, s': State, c: int)
  {
    && HereProc(s, c) && Me(s, c).pc.Tidy?
    && var p := s.cpus[c].thread;
       s' == SetProc(Release(s, c, Relock(Me(s, c).pc.back)), p, s.procs[p].(chan := NoChan))
  }

  ghost predicate SleepRelock(s: State, s': State, c: int)
  {
    && HereProc(s, c) && Me(s, c).pc.Relock?
    && var l := Me(s, c).pc.want;
       && l in s.lks && s.lks[l] == -1
       && s' == Set(s, c, Me(s, c).(pc := Code, l := l)).(lks := s.lks[l := c], cpus := s.cpus[c := Push(s.cpus[c])])
  }

  // ---------------------------------------------------------------- swtch and the scheduler

  /** sched's swtch to the scheduler of this CPU. */
  ghost predicate SwitchOut(s: State, s': State, c: int)
  {
    && HereProc(s, c) && Me(s, c).pc.Switching? && |s.procs| + c < |s.threads|
    && var p, t := s.cpus[c].thread, |s.procs| + c;
       s' == s.(cpus := s.cpus[c := s.cpus[c].(thread := t)],
                threads := s.threads[p := Me(s, c).(pc := Off(Me(s, c).pc.k), at := -1, saved := s.cpus[c].intena)]
                                    [t := s.threads[t].(pc := Resched, at := c)])
  }

  /** The program point of a resumed thread. */
  function Resume(k: Cont): Pc
  {
    match k
    case AfterYield => Unlocking
    case AfterFork => Unlocking
    case AfterSleep(l) => Tidy(l)
    case AfterWait => WaitBack
    case AfterExit => Panic
    case InSched => Panic
  }

  /** The scheduler's swtch to the process it picked. */
  ghost predicate SwitchIn(s: State, s': State, c: int)
  {
    && Here(s, c) && Me(s, c).pc.SchedGo?
    && var t, p := s.cpus[c].thread, Me(s, c).pc.p;
       && 0 <= p < |s.procs| <= |s.threads| && s.threads[p].pc.Off?
       && var k := s.threads[p].pc.k;
          var on := if k.AfterFork? then s.cpus[c].intena else s.threads[p].saved;
          s' == s.(cpus := s.cpus[c := s.cpus[c].(thread := p, intena := on)],
                   threads := s.threads[t := Me(s, c).(pc := Off(InSched), at := -1)]
                                       [p := s.threads[p].(pc := Resume(k), at := c)])
  }

  ghost predicate SchedStart(s: State, s': State, c: int)
  {
    && Here(s, c) && s.cpus[c].thread == |s.procs| + c && Plain(Me(s, c)) && s.lock == -1
    && s' == Acquire(s, c, SchedScan)
  }

  ghost predicate SchedPick(s: State, s': State, c: int, p: int)
  {
    && Here(s, c) && Me(s, c).pc.SchedScan?
    && 0 <= p < |s.procs| && s.procs[p].state.Runnable?
    && s' == SetProc(Go(s, c, SchedGo(p)), p, s.procs[p].(state := Running)).(cpus := s.cpus[c := s.cpus[c].(cur := p)])
  }

  ghost predicate SchedBack(s: State, s': State, c: int)
  {
    && Here(s, c) && Me(s, c).pc.Resched?
    && s' == Go(s, c, SchedScan).(cpus := s.cpus[c := s.cpus[c].(cur := -1)])
  }

  ghost predicate SchedEnd(s: State, s': State, c: int)
  {
    Here(s, c) && Me(s, c).pc.SchedScan? && s' == Release(s, c, Code)
  }

  // ---------------------------------------------------------------- fork

  ghost predicate AllocStart(s: State, s': State, c: int)
  {
    HereProc(s, c) && Plain(Me(s, c)) && s.lock == -1 && s' == Acquire(s, c, Allocating)
  }

  /** allocproc takes the first unused slot, or there is none. */
  ghost predicate AllocTake(s: State, s': State, c: int, e: int)
  {
    && HereProc(s, c) && Me(s, c).pc.Allocating?
    && (if exists q :: 0 <= q < |s.procs| && s.procs[q].state.Unused?
        then && 0 <= e < |s.procs| && s.procs[e].state.Unused?
             && (forall q :: 0 <= q < e ==> !s.procs[q].state.Unused?)
             && s' == SetProc(Set(s, c, Me(s, c).(pc := Unlocking, np := e)), e,
                              s.procs[e].(state := Embryo, pid := s.nextpid)).(nextpid := s.nextpid + 1)
        else s' == Go(s, c, Unlocking))
  }

  /** fork is working on slot e, outside any critical section. */
  ghost predicate Filling(s: State, c: int, e: int)
  {
    && HereProc(s, c) && Me(s, c).pc.Code? && Me(s, c).np == e
    && 0 <= e < |s.procs| <= |s.threads|
  }

  /** kalloc for the kernel stack succeeds and the context is set up, or it fails. */
  ghost predicate AllocStack(s: State, s': State, c: int, e: int, ok: bool)
  {
    && Filling(s, c, e) && !s.procs[e].kstack
    && (if ok
        then s' == SetProc(s, e, s.procs[e].(kstack := true))
                   .(threads := s.threads[e := Thread(Off(AfterFork), -1, -1, {}, -1, false)])
        else s' == SetProc(Set(s, c, Me(s, c).(np := -1)), e, s.procs[e].(state := Unused)))
  }

  /** copyuvm fails, and the slot is given back. */
  ghost predicate ForkFail(s: State, s': State, c: int, e: int)
  {
    && Filling(s, c, e) && s.procs[e].kstack && s.procs[e].parent == -1
    && s' == SetProc(s, e, s.procs[e].(kstack := false, state := Unused))
             .(threads := s.threads[s.cpus[c].thread := Me(s, c).(np := -1)][e := Thread(Dead, -1, -1, {}, -1, false)])
  }

  ghost predicate ForkParent(s: State, s': State, c: int, e: int)
  {
    && Filling(s, c, e) && s.procs[e].kstack && s.procs[e].parent == -1
    && s' == SetProc(s, e, s.procs[e].(parent := s.cpus[c].thread))
  }

  ghost predicate ForkLock(s: State, s': State, c: int, e: int)
  {
    && Filling(s, c, e) && s.procs[e].parent != -1 && Me(s, c).l == -1 && s.lock == -1
    && s' == Acquire(s, c, ForkReady)
  }

  ghost predicate ForkRun(s: State, s': State, c: int)
  {
    && HereProc(s, c) && Me(s, c).pc.ForkReady?
    && var e := Me(s, c).np;
       && 0 <= e < |s.procs|
       && s' == SetProc(Set(s, c, Me(s, c).(pc := Unlocking, np := -1)), e, s.procs[e].(state := Runnable))
  }

  // ---------------------------------------------------------------- exit and wait

  /** exit, by any process but init (for which exit panics). */
  ghost predicate ExitStart(s: State, s': State, c: int)
  {
    && HereProc(s, c) && s.cpus[c].thread != INIT && Plain(Me(s, c)) && s.lock == -1
    && s' == Acquire(s, c, Exiting)
  }

  ghost predicate ExitWake(s: State, s': State, c: int)
  {
    && HereProc(s, c) && Me(s, c).pc.Exiting?
    && s' == Go(s, c, ExitWoke).(procs := Woken(s.procs, Self(s.procs[s.cpus[c].thread].parent)))
  }

  ghost predicate ExitGive(s: State, s': State, c: int)
  {
    && HereProc(s, c) && Me(s, c).pc.ExitWoke?
    && s' == Go(s, c, ExitGiven).(procs := Reparented(s.procs, s.cpus[c].thread))
  }

  ghost predicate ExitSet(s: State, s': State, c: int)
  {
    && HereProc(s, c) && Me(s, c).pc.ExitGiven?
    && var p := s.cpus[c].thread;
       s' == SetProc(Go(s, c, Switching(AfterExit)), p, s.procs[p].(state := Zombie))
  }

  ghost predicate WaitStart(s: State, s': State, c: int)
  {
    HereProc(s, c) && Plain(Me(s, c)) && s.lock == -1 && s' == Acquire(s, c, Scanning)
  }

  ghost predicate ZombieChild(procs: seq<Proc>, p: int, z: int)
  {
    0 <= z < |procs| && procs[z].parent == p && procs[z].state.Zombie?
  }

  /** The scan finds a zombie child z: its stack is freed and its slot given back. */
  ghost predicate WaitReap(s: State, s': State, c: int, z: int)
  {
    && HereProc(s, c) && Me(s, c).pc.Scanning? && |s.procs| <= |s.threads|
    && ZombieChild(s.procs, s.cpus[c].thread, z)
    && s' == SetProc(s, z, s.procs[z].(state := Unused, pid := 0, parent := -1, kstack := false, killed := false))
             .(threads := s.threads[s.cpus[c].thread := Me(s, c).(pc := Unlocking)]
                                    [z := Thread(Dead, -1, -1, {}, -1, false)])
  }

  ghost predicate HasKids(procs: seq<Proc>, p: int)
  {
    exists q :: 0 <= q < |procs| && procs[q].parent == p
  }

  /** The scan finds no zombie child: return -1, or sleep on the process's own address. */
  ghost predicate WaitScan(s: State, s': State, c: int)
  {
    && HereProc(s, c) && Me(s, c).pc.Scanning?
    && var p := s.cpus[c].thread;
       && (forall z :: !ZombieChild(s.procs, p, z))
       && (if !HasKids(s.procs, p) || s.procs[p].killed then s' == Go(s, c, Unlocking)
           else s' == SetProc(Go(s, c, Switching(AfterWait)), p, s.procs[p].(chan := Self(p), state := Sleeping)))
  }

  ghost predicate WaitAgain(s: State, s': State, c: int)
  {
    && HereProc(s, c) && Me(s, c).pc.WaitBack?
    && var p := s.cpus[c].thread;
       s' == SetProc(Go(s, c, Scanning), p, s.procs[p].(chan := NoChan))
  }

  // ---------------------------------------------------------------- runs

  /** One step of CPU c; the integer and the boolean are the step's choices. */
  ghost predicate Step(s: State, s': State, c: int, x: int, b: bool)
  {
    || Interrupts(s, s', c, b) || LkAcquire(s, s', c, x) || LkRelease(s, s', c) || Change(s, s', c, x, b)
    || WakeStart(s, s', c, x) || WakeScan(s, s', c) || Unlock(s, s', c)
    || KillStart(s, s', c, x) || KillScan(s, s', c, x)
    || YieldStart(s, s', c) || YieldSet(s, s', c)
    || SleepStart(s, s', c, x) || SleepLock(s, s', c) || SleepRelease(s, s', c) || SleepSet(s, s', c)
    || SleepTidy(s, s', c) || SleepRelock(s, s', c)
    || SwitchOut(s, s', c) || SwitchIn(s, s', c)
    || SchedStart(s, s', c) || SchedPick(s, s', c, x) || SchedBack(s, s', c) || SchedEnd(s, s', c)
    || AllocStart(s, s', c) || AllocTake(s, s', c, x) || AllocStack(s, s', c, x, b) || ForkFail(s, s', c, x)
    || ForkParent(s, s', c, x) || ForkLock(s, s', c, x) || ForkRun(s, s', c)
    || ExitStart(s, s', c) || ExitWake(s, s', c) || ExitGive(s, s', c) || ExitSet(s, s', c)
    || WaitStart(s, s', c) || WaitReap(s, s', c, x) || WaitScan(s, s', c) || WaitAgain(s, s', c)
  }

  ghost predicate Next(s: State, s': State)
  {
    exists c, x, b :: Step(s, s', c, x, b)
  }

  /** After userinit: init is runnable in slot 0, every CPU is in its scheduler. */
  ghost predicate Start(s: State)
  {
    && |s.procs| >= 1 && |s.threads| == |s.procs| + |s.cpus|
    && s.procs[INIT] == Proc(Runnable, 1, -1, NoChan, true, false)
    && s.threads[INIT] == Thread(Off(AfterFork), -1, -1, {}, -1, false)
    && (forall p :: 0 < p < |s.procs| ==>
          s.procs[p] == Proc(Unused, 0, -1, NoChan, false, false)
          && s.threads[p] == Thread(Dead, -1, -1, {}, -1, false))
    && (forall c :: 0 <= c < |s.cpus| ==>
          && s.cpus[c].thread == |s.procs| + c && s.cpus[c].cur == -1 && s.cpus[c].ncli == 0
          && s.threads[|s.procs| + c] == Thread(Code, c, -1, {}, -1, false))
    && s.lock == -1 && s.nextpid == 2
    && (forall l :: l in s.lks ==> l >= 0 && s.lks[l] == -1)
  }

  ghost predicate IsRun(run: seq<State>)
  {
    |run| > 0 && Start(run[0]) && forall i :: 0 <= i < |run| - 1 ==> Next(run[i], run[i + 1])
  }
}
