/**
Every step keeps the places, the locks, the roles and who runs where.
*/
module ProcBase {
  import opened ProcMachine
  import opened ProcPlaces
  import opened ProcWho

  /** The slot that thread t's fork is filling. */
  ghost predicate NpOk(s: State, t: int)
    requires 0 <= t < |s.threads|
  {
    var e := s.threads[t].np;
    && 0 <= t < |s.procs| && 0 <= e < |s.procs| && s.procs[e].state.Embryo?
    && s.procs[t].pid < s.procs[e].pid
    && (s.procs[e].parent == -1 || (s.procs[e].parent == t && s.procs[e].kstack))
    && (s.threads[t].pc.ForkReady? ==> s.procs[e].parent == t)
  }

  ghost predicate Forks(s: State)
  {
    && (forall t :: 0 <= t < |s.threads| && s.threads[t].np != -1 ==> NpOk(s, t))
    && (forall t, u :: 0 <= t < |s.threads| && 0 <= u < |s.threads| ==>
          s.threads[t].np != -1 && s.threads[t].np == s.threads[u].np ==> t == u)
    && (forall e :: 0 <= e < |s.procs| && s.procs[e].state.Embryo? && s.procs[e].parent != -1 ==>
          0 <= s.procs[e].parent < |s.threads| && s.threads[s.procs[e].parent].np == e)
  }

  lemma RoleHere(s: State, c: int)
    requires Base(s) && Here(s, c)
    ensures RoleOk(|s.procs|, s.guard, s.cpus[c].thread, Me(s, c)) && Me(s, c).at == c && PlaceOk(s, c)
    ensures CliOk(s, c) && HolderOk(s, s.cpus[c].thread)
    ensures HasLock(Me(s, c).pc) ==> s.lock == c
  {
    assert PlaceOk(s, c);
  }

  /** Only one thread is inside ptable.lock. */
  lemma OneInside(s: State, c: int, t: int)
    requires Base(s) && Here(s, c) && HasLock(Me(s, c).pc) && 0 <= t < |s.threads| && HasLock(s.threads[t].pc)
    ensures t == s.cpus[c].thread
  {
    RoleHere(s, c);
    assert HolderOk(s, t) && AtOk(s, t);
  }

  lemma NpHere(s: State, c: int)
    requires Forks(s) && Here(s, c) && Me(s, c).np != -1
    ensures NpOk(s, s.cpus[c].thread)
  {
  }

  lemma BaseInterrupts(s: State, s': State, c: int, b: bool)
    requires Base(s) && Interrupts(s, s', c, b)
    ensures Base(s')
  {
    hide Base;
    RoleHere(s, c);
    QuietStay(s, s', c, Me(s, c), s.cpus[c].(ief := b));
  }

  lemma BaseLk(s: State, s': State, c: int, l: int)
    requires Base(s) && (LkAcquire(s, s', c, l) || LkRelease(s, s', c) || SleepRelock(s, s', c))
    ensures Base(s')
  {
    hide Base;
    RoleHere(s, c);
    if LkAcquire(s, s', c, l) {
      QuietTake(s, s', c, Me(s, c).(l := l), l);
    } else if LkRelease(s, s', c) {
      QuietGive(s, s', c, Me(s, c).(l := -1), Me(s, c).l);
    } else {
      RelockRole(s, c);
      QuietTake(s, s', c, Me(s, c).(pc := Code, l := Me(s, c).pc.want), Me(s, c).pc.want);
    }
  }

  lemma RelockRole(s: State, c: int)
    requires Base(s) && Here(s, c) && Me(s, c).pc.Relock?
    ensures Me(s, c).pc.want in s.lks ==> Me(s, c).pc.want >= 0
  {
  }

  lemma BaseChange(s: State, s': State, c: int, ch: int, v: bool)
    requires Base(s) && Change(s, s', c, ch, v)
    ensures Base(s')
  {
    hide Base;
    RoleHere(s, c);
    QuietStay(s, s', c, Me(s, c).(dirty := Me(s, c).dirty + if v then {ch} else {}), s.cpus[c]);
  }

  /** The steps that take ptable.lock. */
  lemma BaseAcquire(s: State, s': State, c: int, pc: Pc)
    requires Base(s) && Here(s, c) && s.lock == -1 && s' == Acquire(s, c, pc) && Executing(Me(s, c).pc)
    requires !Me(s, c).pc.SchedGo? && !Me(s, c).pc.Resched?
    requires HasLock(pc) && Executing(pc) && !pc.SchedGo? && !pc.Resched?
    requires RoleOk(|s.procs|, s.guard, s.cpus[c].thread, Me(s, c).(pc := pc))
    ensures Base(s')
  {
    hide Base, RoleOk;
    RoleHere(s, c);
    QuietAcquire(s, s', c, Me(s, c).(pc := pc), Push(s.cpus[c]));
  }

  lemma BaseWakeKill(s: State, s': State, c: int, x: int)
    requires Base(s) && (WakeStart(s, s', c, x) || KillStart(s, s', c, x))
    ensures Base(s')
  {
    hide Base;
    RoleHere(s, c);
    BaseAcquire(s, s', c, if WakeStart(s, s', c, x) then Waking(x) else Killing(x));
  }

  lemma BaseSleepSched(s: State, s': State, c: int)
    requires Base(s) && (SleepLock(s, s', c) || SchedStart(s, s', c))
    ensures Base(s')
  {
    hide Base;
    RoleHere(s, c);
    BaseAcquire(s, s', c, if SleepLock(s, s', c) then Falling(Me(s, c).pc.ch) else SchedScan);
  }

  lemma BaseAllocFork(s: State, s': State, c: int, e: int)
    requires Base(s) && (AllocStart(s, s', c) || ForkLock(s, s', c, e))
    ensures Base(s')
  {
    hide Base;
    RoleHere(s, c);
    BaseAcquire(s, s', c, if AllocStart(s, s', c) then Allocating else ForkReady);
  }

  lemma BaseExitWait(s: State, s': State, c: int)
    requires Base(s) && (ExitStart(s, s', c) || WaitStart(s, s', c))
    ensures Base(s')
  {
    hide Base;
    RoleHere(s, c);
    BaseAcquire(s, s', c, if ExitStart(s, s', c) then Exiting else Scanning);
  }

  lemma BaseYieldStart(s: State, s': State, c: int)
    requires Base(s) && YieldStart(s, s', c)
    ensures Base(s')
  {
    hide Base;
    RoleHere(s, c);
    QuietAcquire(s, s', c, Me(s, c).(pc := Yielding), Push(s.cpus[c].(ief := false)));
  }

  lemma BaseReleases(s: State, s': State, c: int)
    requires Base(s) && (Unlock(s, s', c) || SchedEnd(s, s', c) || SleepTidy(s, s', c))
    ensures Base(s')
  {
    hide Base;
    RoleHere(s, c);
    QuietRelease(s, s', c, Me(s, c).(pc := if Me(s, c).pc.Tidy? then Relock(Me(s, c).pc.back) else Code));
  }

  lemma BaseSleep(s: State, s': State, c: int, ch: int)
    requires Base(s) && (SleepStart(s, s', c, ch) || SleepRelease(s, s', c))
    ensures Base(s')
  {
    hide Base;
    RoleHere(s, c);
    if SleepStart(s, s', c, ch) {
      QuietStay(s, s', c, Me(s, c).(pc := Spin(ch)), s.cpus[c]);
    } else {
      QuietGive(s, s', c, Me(s, c).(pc := Sleepy(Me(s, c).pc.ch, Me(s, c).l), l := -1), Me(s, c).l);
    }
  }

  /** Table scans that only wake sleepers. */
  lemma BaseWakeScans(s: State, s': State, c: int, p: int)
    requires Base(s) && (WakeScan(s, s', c) || KillScan(s, s', c, p))
    ensures Base(s')
  {
    hide Base;
    RoleHere(s, c);
    if WakeScan(s, s', c) {
      QuietStay(s, s', c, Me(s, c).(pc := Unlocking, dirty := Me(s, c).dirty - {Me(s, c).pc.ch}), s.cpus[c]);
    } else {
      QuietStay(s, s', c, Me(s, c).(pc := Unlocking), s.cpus[c]);
    }
  }

  lemma BaseExitScans(s: State, s': State, c: int)
    requires Base(s) && (ExitWake(s, s', c) || WaitAgain(s, s', c))
    ensures Base(s')
  {
    hide Base;
    RoleHere(s, c);
    QuietStay(s, s', c, Me(s, c).(pc := if ExitWake(s, s', c) then ExitWoke else Scanning), s.cpus[c]);
  }

  lemma ReparentedAt(procs: seq<Proc>, me: int, i: int)
    requires 0 <= i < |procs|
    ensures Reparented(procs, me)[i] == Adopt(procs[i], me)
      || Reparented(procs, me)[i] == Wake(Adopt(procs[i], me), Self(INIT))
    ensures (exists z :: ZombieChild(procs, me, z)) ==>
      Reparented(procs, me)[i] == Wake(Adopt(procs[i], me), Self(INIT))
  {
  }

  lemma BaseExitGive(s: State, s': State, c: int)
    requires Base(s) && ExitGive(s, s', c)
    ensures Base(s')
  {
    hide Reparented;
    RoleHere(s, c);
    var me := s.cpus[c].thread;
    forall p | 0 <= p < |s.procs| ensures Stirred(s.procs[p], s'.procs[p]) {
      ReparentedAt(s.procs, me, p);
      assert ProcOk(s, p);
      assert PlaceOk(s, c);
    }
    QuietStay(s, s', c, Me(s, c).(pc := ExitGiven), s.cpus[c]);
  }

  // ---------------------------------------------------------------- turns begin and end

  /** A process gives up its turn: its state is set, and only swtch is left to do. */
  lemma BaseLeave(s: State, s': State, c: int, k: Cont, pr: Proc)
    requires Base(s) && HereProc(s, c) && HasLock(Me(s, c).pc) && Executing(Me(s, c).pc)
    requires s' == SetProc(Go(s, c, Switching(k)), s.cpus[c].thread, pr)
    requires pr.kstack == s.procs[s.cpus[c].thread].kstack
    requires RoleOk(|s.procs|, s.guard, s.cpus[c].thread, Me(s, c).(pc := Switching(k)))
    requires match pr.state
      case Runnable => k.AfterYield?
      case Sleeping => k.AfterSleep? || k.AfterWait?
      case Zombie => k.AfterExit?
      case _ => false
    ensures Base(s')
  {
    var t, th := s.cpus[c].thread, Me(s, c).(pc := Switching(k));
    RoleHere(s, c);
    Executes(s, c);
    TouchedPlaces(s, s', c, th, s.cpus[c]);
    StayLocks(s, s', c, th, s.cpus[c]);
    forall p | 0 <= p < |s'.procs| ensures ProcOk(s', p) {
      assert ProcOk(s, p);
    }
    forall d | 0 <= d < |s'.cpus| ensures Here(s', d) && CurOk(s', d) {
      assert PlaceOk(s, d) && CurOk(s, d);
    }
  }

  lemma BaseSets(s: State, s': State, c: int)
    requires Base(s) && (YieldSet(s, s', c) || SleepSet(s, s', c) || ExitSet(s, s', c))
    ensures Base(s')
  {
    hide Base;
    RoleHere(s, c);
    var k := if YieldSet(s, s', c) then AfterYield
             else if SleepSet(s, s', c) then AfterSleep(Me(s, c).pc.back) else AfterExit;
    BaseLeave(s, s', c, k, s'.procs[s.cpus[c].thread]);
  }

  lemma BaseWaitScan(s: State, s': State, c: int)
    requires Base(s) && WaitScan(s, s', c)
    ensures Base(s')
  {
    hide Base, ZombieChild, HasKids;
    var p := s.cpus[c].thread;
    RoleHere(s, c);
    if !HasKids(s.procs, p) || s.procs[p].killed {
      QuietStay(s, s', c, Me(s, c).(pc := Unlocking), s.cpus[c]);
    } else {
      BaseLeave(s, s', c, AfterWait, s.procs[p].(chan := Self(p), state := Sleeping));
    }
  }

  lemma BaseSwitchOut(s: State, s': State, c: int)
    requires Base(s) && SwitchOut(s, s', c)
    ensures Base(s')
  {
    SwitchOutPlaces(s, s', c);
    SwitchOutWho(s, s', c);
  }

  lemma SwitchOutPlaces(s: State, s': State, c: int)
    requires Base(s) && SwitchOut(s, s', c)
    ensures Places(s') && Locks(s') && Roles(s') && s.lock == c
  {
    hide ProcOk, CurOk;
    var p, t := s.cpus[c].thread, |s.procs| + c;
    var off, on := s'.threads[p], s'.threads[t];
    RoleHere(s, c);
    assert AtOk(s, t) && HolderOk(s, t) && RoleOk(|s.procs|, s.guard, t, s.threads[t]);
    forall d | 0 <= d < |s.cpus| ensures s.cpus[d].thread != t {
      assert PlaceOk(s, d);
    }
    SwappedPlaces(s, s', c, t, off, on, s'.cpus[c]);
    SwappedLocks(s, s', c, t, off, on, s'.cpus[c]);
  }

  lemma SwitchOutWho(s: State, s': State, c: int)
    requires Base(s) && SwitchOut(s, s', c) && s.lock == c
    ensures Who(s')
  {
    hide RoleOk, Locks;
    RoleHere(s, c);
    assert ProcOk(s, s.cpus[c].thread);
    forall q | 0 <= q < |s'.procs| ensures ProcOk(s', q) {
      assert ProcOk(s, q);
    }
    forall d | 0 <= d < |s'.cpus| ensures Here(s', d) && CurOk(s', d) {
      assert PlaceOk(s, d) && CurOk(s, d);
    }
  }

  lemma BaseSwitchIn(s: State, s': State, c: int)
    requires Base(s) && SwitchIn(s, s', c)
    ensures Base(s')
  {
    SwitchInPlaces(s, s', c);
    SwitchInWho(s, s', c);
  }

  lemma SwitchInPlaces(s: State, s': State, c: int)
    requires Base(s) && SwitchIn(s, s', c)
    ensures Places(s') && Locks(s') && Roles(s') && s.lock == c && !s.threads[Me(s, c).pc.p].pc.k.AfterExit?
  {
    var t, p := s.cpus[c].thread, Me(s, c).pc.p;
    var off, on := s'.threads[t], s'.threads[p];
    RoleHere(s, c);
    assert AtOk(s, p) && ProcOk(s, p) && CurOk(s, c) && HolderOk(s, p);
    assert RoleOk(|s.procs|, s.guard, p, s.threads[p]);
    SwappedPlaces(s, s', c, p, off, on, s'.cpus[c]);
    SwappedLocks(s, s', c, p, off, on, s'.cpus[c]);
  }

  lemma SwitchInWho(s: State, s': State, c: int)
    requires Base(s) && SwitchIn(s, s', c) && s.lock == c && !s.threads[Me(s, c).pc.p].pc.k.AfterExit?
    ensures Who(s')
  {
    hide Locks;
    RoleHere(s, c);
    var p := Me(s, c).pc.p;
    assert CurOk(s, c) && ProcOk(s, p) && RoleOk(|s.procs|, s.guard, p, s.threads[p]);
    forall q | 0 <= q < |s'.procs| ensures ProcOk(s', q) {
      assert ProcOk(s, q);
    }
    forall d | 0 <= d < |s'.cpus| ensures Here(s', d) && CurOk(s', d) {
      assert PlaceOk(s, d) && CurOk(s, d);
      RoleHere(s, d);
    }
  }

  lemma BaseSchedPick(s: State, s': State, c: int, p: int)
    requires Base(s) && SchedPick(s, s', c, p)
    ensures Base(s')
  {
    var th, u := Me(s, c).(pc := SchedGo(p)), s.cpus[c].(cur := p);
    RoleHere(s, c);
    assert AtOk(s, p) && HolderOk(s, p) && ProcOk(s, p);
    TouchedPlaces(s, s', c, th, u);
    StayLocks(s, s', c, th, u);
    forall q | 0 <= q < |s'.procs| ensures ProcOk(s', q) {
      assert ProcOk(s, q);
    }
    forall d | 0 <= d < |s'.cpus| ensures Here(s', d) && CurOk(s', d) {
      assert PlaceOk(s, d) && CurOk(s, d) && HolderOk(s, s.cpus[d].thread);
    }
  }

  lemma BaseSchedBack(s: State, s': State, c: int)
    requires Base(s) && SchedBack(s, s', c)
    ensures Base(s')
  {
    var th, u := Me(s, c).(pc := SchedScan), s.cpus[c].(cur := -1);
    RoleHere(s, c);
    TouchedPlaces(s, s', c, th, u);
    StayLocks(s, s', c, th, u);
    forall q | 0 <= q < |s'.procs| ensures ProcOk(s', q) {
      assert ProcOk(s, q);
    }
    forall d | 0 <= d < |s'.cpus| ensures Here(s', d) && CurOk(s', d) {
      assert PlaceOk(s, d) && CurOk(s, d) && HolderOk(s, s.cpus[d].thread);
    }
  }

  // ---------------------------------------------------------------- slots taken and given back

  /** Slot e, whose thread is on no CPU, gets a new record, and perhaps a new thread. */
  lemma BaseSlot(s: State, s': State, e: int, pr: Proc, th: Thread)
    requires Base(s) && Recast(s, s', e, th) && 0 <= e < |s.procs| && s'.procs == s.procs[e := pr]
    requires s'.guard == s.guard
    requires RoleOk(|s.procs|, s.guard, e, th) && !s.procs[e].state.Running? && !pr.state.Running?
    requires match pr.state
      case Unused => th.pc.Dead? && !pr.kstack && pr.parent == -1
      case Embryo => th.pc == if pr.kstack then Off(AfterFork) else Dead
      case Runnable => pr.kstack && th.pc == Off(AfterFork)
      case _ => false
    ensures Base(s')
  {
    hide RoleOk;
    RecastPlaces(s, s', e, th);
    forall q | 0 <= q < |s'.procs| ensures ProcOk(s', q) {
      assert ProcOk(s, q);
      assert s.lock != -1 ==> PlaceOk(s, s.lock);
    }
    forall d | 0 <= d < |s'.cpus| ensures Here(s', d) && CurOk(s', d) {
      assert PlaceOk(s, d) && CurOk(s, d);
    }
  }

  lemma SlotHere(s: State, e: int)
    requires Base(s) && 0 <= e < |s.procs|
    ensures |s.procs| <= |s.threads| && ProcOk(s, e) && AtOk(s, e) && HolderOk(s, e)
    ensures RoleOk(|s.procs|, s.guard, e, s.threads[e])
  {
  }

  lemma BaseAllocTake(s: State, s': State, c: int, e: int)
    requires Base(s) && AllocTake(s, s', c, e)
    ensures Base(s')
  {
    hide Base;
    RoleHere(s, c);
    var th := Me(s, c).(pc := Unlocking);
    if exists q :: 0 <= q < |s.procs| && s.procs[q].state.Unused? {
      SlotHere(s, e);
      var s1 := Set(s, c, th.(np := e));
      QuietStay(s, s1, c, th.(np := e), s.cpus[c]);
      BaseSlot(s1, s', e, s'.procs[e], s.threads[e]);
    } else {
      QuietStay(s, s', c, th, s.cpus[c]);
    }
  }

  lemma BaseAllocStack(s: State, s': State, c: int, e: int, ok: bool)
    requires Base(s) && Forks(s) && AllocStack(s, s', c, e, ok)
    ensures Base(s')
  {
    hide Base;
    RoleHere(s, c);
    SlotHere(s, e);
    assert NpOk(s, s.cpus[c].thread);
    if ok {
      BaseSlot(s, s', e, s'.procs[e], Thread(Off(AfterFork), -1, -1, {}, -1, false));
    } else {
      var s1 := Set(s, c, Me(s, c).(np := -1));
      QuietStay(s, s1, c, Me(s, c).(np := -1), s.cpus[c]);
      BaseSlot(s1, s', e, s'.procs[e], s.threads[e]);
    }
  }

  lemma BaseForkFail(s: State, s': State, c: int, e: int)
    requires Base(s) && Forks(s) && ForkFail(s, s', c, e)
    ensures Base(s')
  {
    hide Base;
    RoleHere(s, c);
    SlotHere(s, e);
    assert NpOk(s, s.cpus[c].thread);
    var s1 := Set(s, c, Me(s, c).(np := -1));
    QuietStay(s, s1, c, Me(s, c).(np := -1), s.cpus[c]);
    BaseSlot(s1, s', e, s'.procs[e], Thread(Dead, -1, -1, {}, -1, false));
  }

  lemma BaseForkParent(s: State, s': State, c: int, e: int)
    requires Base(s) && Forks(s) && ForkParent(s, s', c, e)
    ensures Base(s')
  {
    hide Base;
    RoleHere(s, c);
    assert NpOk(s, s.cpus[c].thread);
    QuietStay(s, s', c, Me(s, c), s.cpus[c]);
  }

  lemma BaseForkRun(s: State, s': State, c: int)
    requires Base(s) && Forks(s) && ForkRun(s, s', c)
    ensures Base(s')
  {
    hide Base;
    RoleHere(s, c);
    var e := Me(s, c).np;
    SlotHere(s, e);
    assert NpOk(s, s.cpus[c].thread);
    var s1 := Set(s, c, Me(s, c).(pc := Unlocking, np := -1));
    QuietStay(s, s1, c, Me(s, c).(pc := Unlocking, np := -1), s.cpus[c]);
    BaseSlot(s1, s', e, s'.procs[e], s.threads[e]);
  }

  /** A zombie found by wait is on no CPU: its own CPU has switched off its stack. */
  lemma ReapedIsOff(s: State, s': State, c: int, z: int)
    requires Base(s) && WaitReap(s, s', c, z)
    ensures s.threads[z].pc == Off(AfterExit) && s.threads[z].at == -1
    ensures forall d :: 0 <= d < |s.cpus| ==> s.cpus[d].thread != z
  {
    RoleHere(s, c);
    SlotHere(s, z);
    forall d | 0 <= d < |s.cpus| ensures s.cpus[d].thread != z {
      assert PlaceOk(s, d);
    }
  }

  lemma BaseWaitReap(s: State, s': State, c: int, z: int)
    requires Base(s) && WaitReap(s, s', c, z)
    ensures Base(s')
  {
    hide Base;
    RoleHere(s, c);
    SlotHere(s, z);
    ReapedIsOff(s, s', c, z);
    var s1 := Go(s, c, Unlocking);
    QuietStay(s, s1, c, Me(s, c).(pc := Unlocking), s.cpus[c]);
    BaseSlot(s1, s', z, s'.procs[z], Thread(Dead, -1, -1, {}, -1, false));
  }
}
