/**
Which process runs where: the state field of every process against the program point of its
thread, and `proc` of every CPU against the thread it executes.
*/
module ProcWho {
  import opened ProcMachine
  import opened ProcPlaces

  /** On a CPU and not on its way to swtch. */
  predicate Executing(pc: Pc)
  {
    !(pc.Switching? || IsOff(pc))
  }

  predicate NoLk(pc: Pc)
  {
    HasLock(pc) && !(pc.Waking? || pc.Unlocking? || pc.Killing? || pc.Falling?)
  }

  predicate Busy(pc: Pc)
  {
    pc.Killing? || pc.Allocating? || pc.Exiting? || pc.ExitWoke? || pc.ExitGiven? || pc.Scanning? || pc.WaitBack?
  }

  predicate LateExit(pc: Pc)
  {
    pc.Exiting? || pc.ExitWoke? || pc.ExitGiven? || pc == Switching(AfterExit) || pc == Off(AfterExit)
  }

  predicate SchedPc(pc: Pc)
  {
    pc.SchedScan? || pc.SchedGo? || pc.Resched? || pc == Off(InSched)
  }

  /** What thread t's own record satisfies; n is the number of process slots. */
  ghost predicate RoleOk(n: int, guard: map<int, int>, t: int, th: Thread)
  {
    && !th.pc.Panic? && th.pc != Switching(InSched) && th.pc != Switching(AfterFork)
    && (t < n ==> !SchedPc(th.pc))
    && (t >= n ==> SchedPc(th.pc) || th.pc.Code? || th.pc.Waking? || th.pc.Unlocking?)
    && (t >= n ==> th.np == -1)
    && ((NoLk(th.pc) || th.pc.Relock?) ==> th.l == -1)
    && (th.np != -1 ==> !(Busy(th.pc) || th.pc.Dead?))
    && (th.np != -1 && (th.pc.Off? || th.pc.Switching?) ==> th.pc.k.AfterYield? || th.pc.k.AfterSleep?)
    && (th.pc.ForkReady? ==> th.np != -1)
    && (th.pc.Spin? || th.pc.Falling? ==> th.l != -1 && th.pc.ch in guard && guard[th.pc.ch] == th.l)
    && (th.pc.SchedGo? ==> 0 <= th.pc.p < n)
    && (LateExit(th.pc) ==> t != INIT)
  }

  ghost predicate Roles(s: State)
  {
    forall t :: 0 <= t < |s.threads| ==> RoleOk(|s.procs|, s.guard, t, s.threads[t])
  }

  /** The scheduler holding ptable.lock has picked p and is about to switch to it. */
  ghost predicate Picked(s: State, p: int)
  {
    s.lock != -1 && Here(s, s.lock) && Me(s, s.lock).pc == SchedGo(p)
  }

  ghost predicate ProcOk(s: State, p: int)
    requires 0 <= p < |s.procs| <= |s.threads|
  {
    var pr, pc := s.procs[p], s.threads[p].pc;
    match pr.state
    case Unused => pc.Dead? && !pr.kstack && pr.parent == -1
    case Embryo => pc == if pr.kstack then Off(AfterFork) else Dead
    case Sleeping => pr.kstack && (pc.Switching? || pc.Off?) && (pc.k.AfterSleep? || pc.k.AfterWait?)
    case Runnable => pr.kstack && (pc == Switching(AfterYield) || (pc.Off? && !pc.k.AfterExit? && !pc.k.InSched?))
    case Running => pr.kstack && (Executing(pc) || (pc.Off? && !pc.k.AfterExit? && !pc.k.InSched? && Picked(s, p)))
    case Zombie => pr.kstack && (pc == Switching(AfterExit) || pc == Off(AfterExit))
  }

  ghost predicate CurOk(s: State, c: int)
    requires Here(s, c)
  {
    var t, cur, pc := s.cpus[c].thread, s.cpus[c].cur, Me(s, c).pc;
    if t < |s.procs| then cur == t
    else if pc.SchedGo? then
      && cur == pc.p && 0 <= pc.p < |s.procs| && pc.p < |s.threads|
      && s.procs[pc.p].state.Running? && s.threads[pc.p].pc.Off?
    else pc.Resched? || cur == -1
  }

  ghost predicate Who(s: State)
  {
    && |s.procs| <= |s.threads|
    && (forall p :: 0 <= p < |s.procs| ==> ProcOk(s, p))
    && (forall c :: 0 <= c < |s.cpus| ==> Here(s, c) && CurOk(s, c))
  }

  ghost predicate Base(s: State)
  {
    Places(s) && Locks(s) && Roles(s) && Who(s)
  }

  /** What ProcOk reads of a process. */
  predicate Alike(p: Proc, q: Proc)
  {
    q.state == p.state && q.kstack == p.kstack && (p.state.Unused? ==> q.parent == p.parent)
  }

  /** Alike, or woken from sleep. */
  predicate Stirred(p: Proc, q: Proc)
  {
    Alike(p, q) || (p.state.Sleeping? && Alike(p.(state := Runnable), q))
  }

  /** A step that neither starts nor ends a process's turn; it may wake others, under ptable.lock. */
  ghost predicate Quiet(s: State, s': State, c: int, th: Thread, u: Cpu)
  {
    && Touched(s, s', c, th, u) && u.cur == s.cpus[c].cur && s'.guard == s.guard
    && (forall p :: 0 <= p < |s.procs| ==>
          if HasLock(Me(s, c).pc) then Stirred(s.procs[p], s'.procs[p]) else Alike(s.procs[p], s'.procs[p]))
    && Executing(Me(s, c).pc) && Executing(th.pc)
    && !Me(s, c).pc.SchedGo? && !th.pc.SchedGo? && !Me(s, c).pc.Resched? && !th.pc.Resched?
    && (s'.lock == s.lock || s.lock == -1 || s.lock == c)
    && RoleOk(|s.procs|, s.guard, s.cpus[c].thread, th)
  }

  lemma QuietProc(s: State, s': State, c: int, th: Thread, u: Cpu, p: int)
    requires Places(s) && Locks(s) && Who(s) && Quiet(s, s', c, th, u) && 0 <= p < |s.procs|
    ensures ProcOk(s', p)
  {
    assert PlaceOk(s, c) && ProcOk(s, p) && AtOk(s, p) && HolderOk(s, p) && HolderOk(s, s.cpus[c].thread);
    assert s.lock != -1 ==> PlaceOk(s, s.lock);
    assert HasLock(Me(s, c).pc) ==> Stirred(s.procs[p], s'.procs[p]);
    assert !HasLock(Me(s, c).pc) ==> Alike(s.procs[p], s'.procs[p]);
  }

  lemma QuietCur(s: State, s': State, c: int, th: Thread, u: Cpu, d: int)
    requires Places(s) && Who(s) && Quiet(s, s', c, th, u) && 0 <= d < |s.cpus|
    ensures Here(s', d) && CurOk(s', d)
  {
    assert PlaceOk(s, c) && PlaceOk(s, d) && CurOk(s, d) && CurOk(s, c);
    var t := s.cpus[d].thread;
    if d != c && t >= |s.procs| && s.threads[t].pc.SchedGo? {
      var p := s.threads[t].pc.p;
      assert Stirred(s.procs[p], s'.procs[p]);
      assert AtOk(s, p);
    }
  }

  lemma QuietWho(s: State, s': State, c: int, th: Thread, u: Cpu)
    requires Base(s) && Quiet(s, s', c, th, u)
    ensures Places(s') && Who(s') && Roles(s')
  {
    hide ProcOk, CurOk, RoleOk, Stirred, Alike;
    TouchedPlaces(s, s', c, th, u);
    forall p | 0 <= p < |s'.procs| ensures ProcOk(s', p) {
      QuietProc(s, s', c, th, u, p);
    }
    forall d | 0 <= d < |s'.cpus| ensures Here(s', d) && CurOk(s', d) {
      QuietCur(s, s', c, th, u, d);
    }
  }

  lemma QuietStay(s: State, s': State, c: int, th: Thread, u: Cpu)
    requires Base(s) && Quiet(s, s', c, th, u) && s'.lock == s.lock && s'.lks == s.lks
    requires th.l == Me(s, c).l && HasLock(th.pc) == HasLock(Me(s, c).pc)
    requires u.ncli == s.cpus[c].ncli && (u.ief ==> u.ncli == 0)
    ensures Base(s')
  {
    QuietWho(s, s', c, th, u);
    StayLocks(s, s', c, th, u);
  }

  lemma QuietAcquire(s: State, s': State, c: int, th: Thread, u: Cpu)
    requires Base(s) && Quiet(s, s', c, th, u)
    requires s.lock == -1 && s'.lock == c && s'.lks == s.lks && th.l == Me(s, c).l && HasLock(th.pc)
    requires u.ncli == s.cpus[c].ncli + 1 && !u.ief
    ensures Base(s')
  {
    QuietWho(s, s', c, th, u);
    AcquireLocks(s, s', c, th, u);
  }

  lemma QuietRelease(s: State, s': State, c: int, th: Thread)
    requires Base(s) && Here(s, c) && Quiet(s, s', c, th, Pop(s.cpus[c]))
    requires HasLock(Me(s, c).pc) && s'.lock == -1 && s'.lks == s.lks && th.l == Me(s, c).l && !HasLock(th.pc)
    ensures Base(s')
  {
    QuietWho(s, s', c, th, Pop(s.cpus[c]));
    ReleaseLocks(s, s', c, th);
  }

  lemma QuietTake(s: State, s': State, c: int, th: Thread, l: int)
    requires Base(s) && Here(s, c) && Quiet(s, s', c, th, Push(s.cpus[c]))
    requires l in s.lks && s.lks[l] == -1 && s'.lks == s.lks[l := c] && s'.lock == s.lock
    requires Me(s, c).l == -1 && th.l == l && HasLock(th.pc) == HasLock(Me(s, c).pc)
    ensures Base(s')
  {
    QuietWho(s, s', c, th, Push(s.cpus[c]));
    TakeLocks(s, s', c, th, l);
  }

  lemma QuietGive(s: State, s': State, c: int, th: Thread, l: int)
    requires Base(s) && Here(s, c) && Quiet(s, s', c, th, Pop(s.cpus[c]))
    requires Me(s, c).l == l != -1 && s'.lks == s.lks[l := -1] && s'.lock == s.lock
    requires th.l == -1 && HasLock(th.pc) == HasLock(Me(s, c).pc)
    ensures Base(s')
  {
    QuietWho(s, s', c, th, Pop(s.cpus[c]));
    GiveLocks(s, s', c, th, l);
  }

  /** The record of the process executing on c: it is Running. */
  lemma Executes(s: State, c: int)
    requires Base(s) && HereProc(s, c) && Executing(Me(s, c).pc)
    ensures s.procs[s.cpus[c].thread].state.Running? && s.procs[s.cpus[c].thread].kstack
  {
    assert PlaceOk(s, c) && ProcOk(s, s.cpus[c].thread);
  }
}
