/**
The process machine's invariant over whole runs, and what follows from it.
*/
module ProcProof {
  import opened ProcMachine
  import opened ProcPlaces
  import opened ProcWho
  import opened ProcBase
  import opened ProcFamily
  import opened ProcEvents
  import opened ProcWakeups

  ghost predicate Inv(s: State)
  {
    Base(s) && Family(s) && Beds(s)
  }

  /** A step that strands nobody, unless it is a process going to sleep or exiting. */
  ghost predicate Fine(s: State, s': State)
  {
    (exists c :: Leaves(s, s', c)) || (NoneLost(s) ==> NoneLost(s'))
  }

  lemma SteadyFine(s: State, s': State)
    requires Beds(s) && Steady(s, s')
    ensures Beds(s') && Fine(s, s')
  {
    hide NoneLost;
    SteadyBeds(s, s');
    if NoneLost(s) {
      SteadyLost(s, s');
    }
  }

  lemma LeaveFine(s: State, s': State, c: int)
    requires Base(s) && Beds(s) && Leaves(s, s', c)
    ensures Beds(s') && Fine(s, s')
  {
    LeaveBeds(s, s', c);
  }

  lemma ChangeFine(s: State, s': State, c: int, ch: int, v: bool)
    requires Base(s) && Beds(s) && Change(s, s', c, ch, v)
    ensures Beds(s') && Fine(s, s')
  {
    hide NoneLost;
    ChangeBeds(s, s', c, ch, v);
    if NoneLost(s) {
      ChangeLost(s, s', c, ch, v);
    }
  }

  lemma WakeScanFine(s: State, s': State, c: int)
    requires Base(s) && Beds(s) && WakeScan(s, s', c)
    ensures Beds(s') && Fine(s, s')
  {
    hide NoneLost;
    WakeScanBeds(s, s', c);
    if NoneLost(s) {
      WakeScanLost(s, s', c);
    }
  }

  lemma StartInv(s: State)
    requires Start(s)
    ensures Inv(s)
  {
    hide Places, Locks, Roles, Who;
    StartPlaces(s);
    StartWho(s);
    StartFamily(s);
  }

  lemma StartFamily(s: State)
    requires Start(s)
    ensures Family(s) && Beds(s)
  {
    var n := |s.procs|;
    forall t | 0 <= t < |s.threads|
      ensures s.threads[t].np == -1 && BedOk(s, t)
    {
      if t >= n {
        assert s.cpus[t - n].thread == n + (t - n);
      }
    }
  }

  lemma StartPlaces(s: State)
    requires Start(s)
    ensures Places(s) && Locks(s) && Roles(s)
  {
    var n := |s.procs|;
    forall t | 0 <= t < |s.threads| ensures AtOk(s, t) && HolderOk(s, t) && RoleOk(n, s.guard, t, s.threads[t]) {
      if t >= n {
        assert s.cpus[t - n].thread == n + (t - n);
      }
    }
    forall c | 0 <= c < |s.cpus| ensures PlaceOk(s, c) && CliOk(s, c) {
      assert s.cpus[c].thread == n + c;
    }
  }

  lemma StartWho(s: State)
    requires Start(s)
    ensures Who(s)
  {
  }

  // ---------------------------------------------------------------- every step

  ghost predicate Locking(s: State, s': State, c: int, x: int, b: bool)
  {
    || Interrupts(s, s', c, b) || LkAcquire(s, s', c, x) || LkRelease(s, s', c) || Change(s, s', c, x, b)
    || WakeStart(s, s', c, x) || WakeScan(s, s', c) || Unlock(s, s', c)
    || KillStart(s, s', c, x) || KillScan(s, s', c, x)
  }

  ghost predicate Dozing(s: State, s': State, c: int, x: int)
  {
    || YieldStart(s, s', c) || YieldSet(s, s', c)
    || SleepStart(s, s', c, x) || SleepLock(s, s', c) || SleepRelease(s, s', c) || SleepSet(s, s', c)
    || SleepTidy(s, s', c) || SleepRelock(s, s', c)
  }

  ghost predicate Scheduling(s: State, s': State, c: int, x: int)
  {
    || SwitchOut(s, s', c) || SwitchIn(s, s', c)
    || SchedStart(s, s', c) || SchedPick(s, s', c, x) || SchedBack(s, s', c) || SchedEnd(s, s', c)
  }

  ghost predicate Forking(s: State, s': State, c: int, x: int, b: bool)
  {
    || AllocStart(s, s', c) || AllocTake(s, s', c, x) || AllocStack(s, s', c, x, b) || ForkFail(s, s', c, x)
    || ForkParent(s, s', c, x) || ForkLock(s, s', c, x) || ForkRun(s, s', c)
  }

  ghost predicate Leaving(s: State, s': State, c: int, x: int)
  {
    || ExitStart(s, s', c) || ExitWake(s, s', c) || ExitGive(s, s', c) || ExitSet(s, s', c)
    || WaitStart(s, s', c) || WaitReap(s, s', c, x) || WaitScan(s, s', c) || WaitAgain(s, s', c)
  }

  lemma InvCalm(s: State, s': State)
    requires Inv(s) && Base(s') && Calm(s, s') && Steady(s, s')
    ensures Inv(s') && Fine(s, s')
  {
    CalmFamily(s, s');
    SteadyFine(s, s');
  }

  lemma Sizes(s: State)
    requires Base(s)
    ensures |s.procs| <= |s.threads|
  {
  }

  lemma LockingInv(s: State, s': State, c: int, x: int, b: bool)
    requires Inv(s) && Locking(s, s', c, x, b)
    ensures Inv(s') && Fine(s, s')
  {
    hide Base, Family, Beds, Fine, Leaves, Calm, Steady, Interrupts, LkAcquire, LkRelease, Change, WakeStart, WakeScan,
         Unlock, KillStart, KillScan;
    Sizes(s);
    if Interrupts(s, s', c, b) {
      BaseInterrupts(s, s', c, b);
      CalmLks(s, s', c, x, b);
      SteadyLks(s, s', c, x, b);
      InvCalm(s, s');
    } else if LkAcquire(s, s', c, x) || LkRelease(s, s', c) {
      BaseLk(s, s', c, x);
      CalmLks(s, s', c, x, b);
      SteadyLks(s, s', c, x, b);
      InvCalm(s, s');
    } else if Change(s, s', c, x, b) {
      BaseChange(s, s', c, x, b);
      CalmLks(s, s', c, x, b);
      CalmFamily(s, s');
      ChangeFine(s, s', c, x, b);
    } else if WakeStart(s, s', c, x) || KillStart(s, s', c, x) {
      BaseWakeKill(s, s', c, x);
      CalmEnters(s, s', c, x);
      SteadyEnters(s, s', c, x);
      InvCalm(s, s');
    } else if WakeScan(s, s', c) {
      BaseWakeScans(s, s', c, x);
      CalmScan(s, s', c);
      CalmFamily(s, s');
      WakeScanFine(s, s', c);
    } else if Unlock(s, s', c) {
      BaseReleases(s, s', c);
      CalmEnters(s, s', c, x);
      SteadyLks(s, s', c, x, b);
      InvCalm(s, s');
    } else {
      BaseWakeScans(s, s', c, x);
      CalmKillScan(s, s', c, x);
      SteadySched(s, s', c, x);
      InvCalm(s, s');
    }
  }

  lemma SleepingInv(s: State, s': State, c: int, x: int)
    requires Inv(s) && Dozing(s, s', c, x)
    ensures Inv(s') && Fine(s, s')
  {
    hide Base, Family, Beds, Fine, Leaves, Calm, Steady, YieldStart, YieldSet,
         SleepStart, SleepLock, SleepRelease, SleepSet,
         SleepTidy, SleepRelock;
    Sizes(s);
    if SleepSet(s, s', c) {
      BaseSets(s, s', c);
      CalmTurns(s, s', c);
      CalmFamily(s, s');
      SleepLeaves(s, s', c);
      LeaveFine(s, s', c);
      return;
    }
    if YieldStart(s, s', c) {
      BaseYieldStart(s, s', c);
      CalmEnters(s, s', c, x);
      SteadyEnters(s, s', c, x);
    } else if YieldSet(s, s', c) {
      BaseSets(s, s', c);
      CalmTurns(s, s', c);
      SteadySets(s, s', c);
    } else if SleepTidy(s, s', c) {
      BaseReleases(s, s', c);
      CalmScan(s, s', c);
      SteadySets(s, s', c);
    } else {
      SleepBase(s, s', c, x);
      CalmSleep(s, s', c, x);
      SteadySleep(s, s', c, x);
    }
    InvCalm(s, s');
  }

  lemma SleepLeaves(s: State, s': State, c: int)
    requires SleepSet(s, s', c) || ExitSet(s, s', c)
    ensures Leaves(s, s', c)
  {
  }

  lemma SleepBase(s: State, s': State, c: int, x: int)
    requires Base(s)
    requires (SleepStart(s, s', c, x) || SleepLock(s, s', c) || SleepRelease(s, s', c) || SleepRelock(s, s', c))
    ensures Base(s')
  {
    hide Base, SleepStart, SleepLock, SleepRelease, SleepRelock;
    if SleepLock(s, s', c) {
      BaseSleepSched(s, s', c);
    } else if SleepRelock(s, s', c) {
      BaseLk(s, s', c, x);
    } else {
      BaseSleep(s, s', c, x);
    }
  }

  lemma SchedulingInv(s: State, s': State, c: int, x: int)
    requires Inv(s) && Scheduling(s, s', c, x)
    ensures Inv(s') && Fine(s, s')
  {
    hide Base, Family, Beds, Fine, Leaves, Calm, Steady,
         SwitchOut, SwitchIn, SchedStart, SchedPick, SchedBack, SchedEnd;
    Sizes(s);
    if SwitchOut(s, s', c) {
      BaseSwitchOut(s, s', c);
      CalmSwitch(s, s', c);
      SteadySwitch(s, s', c);
    } else if SwitchIn(s, s', c) {
      BaseSwitchIn(s, s', c);
      CalmSwitch(s, s', c);
      SteadySwitch(s, s', c);
    } else if SchedStart(s, s', c) {
      BaseSleepSched(s, s', c);
      CalmSched(s, s', c);
      SteadyEnters(s, s', c, x);
    } else if SchedPick(s, s', c, x) {
      BaseSchedPick(s, s', c, x);
      CalmPick(s, s', c, x);
      SteadySched(s, s', c, x);
    } else if SchedBack(s, s', c) {
      BaseSchedBack(s, s', c);
      CalmSched(s, s', c);
      SteadySched(s, s', c, x);
    } else {
      BaseReleases(s, s', c);
      CalmSched(s, s', c);
      SteadySched(s, s', c, x);
    }
    InvCalm(s, s');
  }

  lemma ForkingInv(s: State, s': State, c: int, x: int, b: bool)
    requires Inv(s) && Forking(s, s', c, x, b)
    ensures Inv(s') && Fine(s, s')
  {
    hide Base, Family, Beds, Fine, Leaves, Calm, Steady,
         AllocStart, AllocTake, AllocStack, ForkFail, ForkParent, ForkLock,
         ForkRun;
    Sizes(s);
    if AllocStart(s, s', c) {
      BaseAllocFork(s, s', c, x);
      CalmCalls(s, s', c);
      CalmFamily(s, s');
      SteadyCalls(s, s', c, x);
    } else if AllocTake(s, s', c, x) {
      BaseAllocTake(s, s', c, x);
      AllocTakeFamily(s, s', c, x);
      SteadyAlloc(s, s', c, x);
    } else if AllocStack(s, s', c, x, b) {
      HasForks(s);
      BaseAllocStack(s, s', c, x, b);
      AllocStackFamily(s, s', c, x, b);
      SteadyStack(s, s', c, x, b);
    } else if ForkFail(s, s', c, x) {
      HasForks(s);
      BaseForkFail(s, s', c, x);
      ForkFailFamily(s, s', c, x);
      SteadyFail(s, s', c, x);
    } else if ForkParent(s, s', c, x) {
      HasForks(s);
      BaseForkParent(s, s', c, x);
      ForkParentFamily(s, s', c, x);
      SteadyAlloc(s, s', c, x);
    } else if ForkLock(s, s', c, x) {
      BaseAllocFork(s, s', c, x);
      ForkLockFamily(s, s', c, x);
      SteadyCalls(s, s', c, x);
    } else {
      HasForks(s);
      BaseForkRun(s, s', c);
      ForkRunFamily(s, s', c);
      SteadyExitWake(s, s', c);
    }
    SteadyFine(s, s');
  }

  lemma HasForks(s: State)
    requires Family(s)
    ensures Forks(s)
  {
  }

  lemma LeavingInv(s: State, s': State, c: int, x: int)
    requires Inv(s) && Leaving(s, s', c, x)
    ensures Inv(s') && Fine(s, s')
  {
    hide Base, Family, Beds, Fine, Leaves, Calm, Steady, ExitStart, ExitWake, ExitGive, ExitSet, WaitStart, WaitReap,
         WaitScan, WaitAgain;
    Sizes(s);
    if ExitSet(s, s', c) {
      BaseSets(s, s', c);
      ExitSetFamily(s, s', c);
      SleepLeaves(s, s', c);
      LeaveFine(s, s', c);
      return;
    }
    if WaitScan(s, s', c) {
      BaseWaitScan(s, s', c);
      WaitScanFamily(s, s', c);
      if Leaves(s, s', c) {
        LeaveFine(s, s', c);
        return;
      }
      SteadyWait(s, s', c);
    } else if ExitStart(s, s', c) || WaitStart(s, s', c) {
      BaseExitWait(s, s', c);
      CalmCalls(s, s', c);
      CalmFamily(s, s');
      SteadyCalls(s, s', c, x);
    } else if ExitWake(s, s', c) {
      BaseExitScans(s, s', c);
      ExitWakeFamily(s, s', c);
      SteadyExitWake(s, s', c);
    } else if ExitGive(s, s', c) {
      BaseExitGive(s, s', c);
      ExitGiveFamily(s, s', c);
      SteadyGive(s, s', c);
    } else if WaitReap(s, s', c, x) {
      BaseWaitReap(s, s', c, x);
      WaitReapFamily(s, s', c, x);
      SteadyReap(s, s', c, x);
    } else {
      BaseExitScans(s, s', c);
      CalmScan(s, s', c);
      CalmFamily(s, s');
      AgainStays(s, s', c);
      SteadyWait(s, s', c);
    }
    SteadyFine(s, s');
  }

  /** Every step of every CPU keeps the invariant. */
  lemma InvNext(s: State, s': State)
    requires Inv(s) && Next(s, s')
    ensures Inv(s') && Fine(s, s')
  {
    hide Inv, Fine;
    var c, x, b :| Step(s, s', c, x, b);
    StepKinds(s, s', c, x, b);
    if Locking(s, s', c, x, b) {
      LockingInv(s, s', c, x, b);
    } else if Dozing(s, s', c, x) {
      SleepingInv(s, s', c, x);
    } else if Scheduling(s, s', c, x) {
      SchedulingInv(s, s', c, x);
    } else if Forking(s, s', c, x, b) {
      ForkingInv(s, s', c, x, b);
    } else {
      LeavingInv(s, s', c, x);
    }
  }

  lemma AgainStays(s: State, s': State, c: int)
    requires WaitAgain(s, s', c)
    ensures !Leaves(s, s', c)
  {
  }

  lemma StepKinds(s: State, s': State, c: int, x: int, b: bool)
    requires Step(s, s', c, x, b)
    ensures Locking(s, s', c, x, b) || Dozing(s, s', c, x) || Scheduling(s, s', c, x)
      || Forking(s, s', c, x, b) || Leaving(s, s', c, x)
  {
  }

  /** The invariant holds in every state of every run. */
  lemma {:induction false} InvRun(run: seq<State>, i: int)
    requires IsRun(run) && 0 <= i < |run|
    ensures Inv(run[i])
    decreases i
  {
    hide Inv, Start, Next;
    if i == 0 {
      StartInv(run[0]);
    } else {
      InvRun(run, i - 1);
      InvNext(run[i - 1], run[i]);
    }
  }

  // ---------------------------------------------------------------- theorems

  /** Whenever ptable.lock is free, a process is Running exactly when it is the current process
      of a CPU, and of only one. */
  lemma RunningIffCurrent(run: seq<State>, i: int, p: int)
    requires IsRun(run) && 0 <= i < |run| && run[i].lock == -1 && 0 <= p < |run[i].procs|
    ensures run[i].procs[p].state.Running? <==> exists c :: 0 <= c < |run[i].cpus| && run[i].cpus[c].cur == p
    ensures forall c, d :: 0 <= c < |run[i].cpus| && 0 <= d < |run[i].cpus| ==>
      run[i].cpus[c].cur == p && run[i].cpus[d].cur == p ==> c == d
  {
    hide IsRun;
    var s := run[i];
    InvRun(run, i);
    SlotHere(s, p);
    forall c | 0 <= c < |s.cpus| && s.cpus[c].cur == p ensures s.procs[p].state.Running? && c == s.threads[p].at {
      RoleHere(s, c);
      assert CurOk(s, c);
    }
    if s.procs[p].state.Running? {
      var c := s.threads[p].at;
      assert CurOk(s, c);
    }
  }

  /** A CPU always executes on a stack that exists. */
  lemma StacksExist(run: seq<State>, i: int, c: int)
    requires IsRun(run) && 0 <= i < |run| && 0 <= c < |run[i].cpus|
    ensures var s, t := run[i], run[i].cpus[c].thread; 0 <= t < |s.procs| ==> s.procs[t].kstack
  {
    hide IsRun;
    InvRun(run, i);
    var t := run[i].cpus[c].thread;
    assert PlaceOk(run[i], c);
    if t < |run[i].procs| {
      SlotHere(run[i], t);
    }
  }

  /** wait frees the stack of a zombie, once, when every CPU has switched off it. */
  lemma ReapedOffCpu(run: seq<State>, i: int, s': State, c: int, z: int, d: int)
    requires IsRun(run) && 0 <= i < |run| && WaitReap(run[i], s', c, z) && 0 <= d < |run[i].cpus|
    ensures run[i].cpus[d].thread != z && run[i].cpus[d].cur != z
    ensures run[i].procs[z].kstack && !s'.procs[z].kstack
  {
    hide IsRun;
    var s := run[i];
    InvRun(run, i);
    ReapedIsOff(s, s', c, z);
    SlotHere(s, z);
    RoleHere(s, c);
    RoleHere(s, d);
    assert CurOk(s, d);
  }

  /** The panics of acquire, release, popcli and sched cannot happen: a thread inside
      ptable.lock is on the CPU that holds it, with interrupts off; sched is called with just
      that lock and a changed state; and no thread is resumed after exit. */
  lemma NoPanics(run: seq<State>, i: int, c: int)
    requires IsRun(run) && 0 <= i < |run| && 0 <= c < |run[i].cpus|
    ensures Here(run[i], c)
    ensures var s, th, u := run[i], Me(run[i], c), run[i].cpus[c];
      && (HasLock(th.pc) <==> s.lock == c)
      && (th.l != -1 ==> th.l in s.lks && s.lks[th.l] == c)
      && (HasLock(th.pc) || th.l != -1 ==> u.ncli > 0 && !u.ief)
      && (th.pc.Switching? ==> u.ncli == 1 && u.thread < |s.procs| && !s.procs[u.thread].state.Running?)
      && !th.pc.Panic?
  {
    hide IsRun;
    InvRun(run, i);
    RoleHere(run[i], c);
    assert CliOk(run[i], c);
    if Me(run[i], c).pc.Switching? {
      SlotHere(run[i], run[i].cpus[c].thread);
    }
  }

  /** A step strands a sleeper exactly when its last debtor falls asleep or exits. */
  lemma LostNext(s: State, s': State)
    requires Inv(s) && NoneLost(s) && Next(s, s')
    ensures NoneLost(s') <==> !Deserts(s, s')
  {
    hide Next, NoneLost, Leaves, LastDebtor, Base, Family, Beds;
    InvNext(s, s');
    forall c | Leaves(s, s', c) ensures HereProc(s, c) && (NoneLost(s') <==> !LastDebtor(s, c)) {
      LeaveEffect(s, s', c);
      LeaveLost(s, s', c);
    }
  }

  lemma {:induction false} NoneLostUpTo(run: seq<State>, n: int)
    requires IsRun(run) && 0 <= n < |run|
    ensures (forall i :: 0 <= i <= n ==> NoneLost(run[i]))
       <==> (forall i :: 0 <= i < n ==> !Deserts(run[i], run[i + 1]))
    decreases n
  {
    hide Inv, Next, NoneLost, Deserts;
    if n == 0 {
      StartNotLost(run[0]);
    } else {
      NoneLostUpTo(run, n - 1);
      InvRun(run, n - 1);
      if NoneLost(run[n - 1]) {
        LostNext(run[n - 1], run[n]);
      }
    }
  }

  lemma StartNotLost(s: State)
    requires Start(s)
    ensures NoneLost(s)
  {
  }

  /** No wakeup is ever lost exactly in the runs where nobody who is the last awake debtor of a
      sleeper falls asleep or exits. */
  lemma NoLostWakeupIff(run: seq<State>)
    requires IsRun(run)
    ensures (forall i :: 0 <= i < |run| ==> NoneLost(run[i]))
       <==> (forall i :: 0 <= i < |run| - 1 ==> !Deserts(run[i], run[i + 1]))
  {
    hide NoneLost, Deserts, Next, Start;
    NoneLostUpTo(run, |run| - 1);
  }

  /** Nobody falls asleep or exits while it owes a wakeup. */
  ghost predicate Dutiful(run: seq<State>)
  {
    forall i, c :: 0 <= i < |run| - 1 && Leaves(run[i], run[i + 1], c) ==> Me(run[i], c).dirty == {}
  }

  /** No lost wakeup: when the condition p sleeps for is true, some thread that can run is
      between making it true and its wakeup1 scan. */
  lemma NoLostWakeup(run: seq<State>, i: int, p: int)
    requires IsRun(run) && Dutiful(run) && 0 <= i < |run| && 0 <= p < |run[i].procs|
    requires run[i].procs[p].state.Sleeping? && run[i].procs[p].chan.Obj?
    ensures var s, ch := run[i], run[i].procs[p].chan.ch;
      ch in s.conds && (s.conds[ch] ==> exists t :: Debtor(s, t, ch))
  {
    hide IsRun, NoneLost, Next, Leaves;
    var s, ch := run[i], run[i].procs[p].chan.ch;
    InvRun(run, i);
    assert AsleepOn(s, p, ch);
    NoLostWakeupIff(run);
    assert NoneLost(s);
    if s.conds[ch] {
      Unstranded(s, p, ch);
    }
  }

  lemma Unstranded(s: State, p: int, ch: int)
    requires NoneLost(s) && AsleepOn(s, p, ch) && ch in s.conds && s.conds[ch]
    ensures exists t :: Debtor(s, t, ch)
  {
  }

  /** The process k parent links above p. */
  ghost function Ancestor(procs: seq<Proc>, p: int, k: int): int
    requires k >= 0
    decreases k
  {
    if k == 0 || !(0 <= p < |procs|) then p else Ancestor(procs, procs[p].parent, k - 1)
  }

  /** From every live process or zombie the parent links lead to init. */
  lemma {:induction false} ReachesInit(s: State, p: int) returns (k: int)
    requires Tree(s) && 0 <= p < |s.procs| && (Alive(s.procs[p].state) || s.procs[p].state.Zombie?)
    ensures k >= 0 && Ancestor(s.procs, p, k) == INIT
    decreases s.procs[p].pid
  {
    if p == INIT {
      k := 0;
    } else {
      assert KinOk(s, p);
      k := ReachesInit(s, s.procs[p].parent);
      k := k + 1;
    }
  }

  /** The process tree in every reachable state. */
  lemma FamilyTree(run: seq<State>, i: int, p: int)
    requires IsRun(run) && 0 <= i < |run| && 0 <= p < |run[i].procs|
    ensures var s := run[i];
      Alive(s.procs[p].state) || s.procs[p].state.Zombie? ==>
        && (p != INIT ==> KinOk(s, p))
        && (exists k :: k >= 0 && Ancestor(s.procs, p, k) == INIT)
    ensures Alive(run[i].procs[INIT].state)
    ensures var s := run[i];
      s.procs[p].state.Sleeping? && |s.procs| <= |s.threads| && InWait(s.threads[p].pc) ==>
        forall z :: !ZombieChild(s.procs, p, z)
  {
    hide IsRun;
    var s := run[i];
    InvRun(run, i);
    if Alive(s.procs[p].state) || s.procs[p].state.Zombie? {
      var k := ReachesInit(s, p);
    }
    if s.procs[p].state.Sleeping? && InWait(s.threads[p].pc) {
      assert Waiting(s.procs, p);
    }
  }
}
