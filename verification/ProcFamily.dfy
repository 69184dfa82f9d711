/**
Parents, children and waiting: every step keeps the process tree rooted at init, and no
process is asleep in wait while it has a zombie child.
*/
module ProcFamily {
  import opened ProcMachine
  import opened ProcWho
  import opened ProcBase

  ghost predicate KinOk(s: State, p: int)
    requires 0 <= p < |s.procs|
  {
    var q := s.procs[p].parent;
    0 <= q < |s.procs| && Alive(s.procs[q].state) && s.procs[q].pid < s.procs[p].pid
  }

  /** Every process but init has a live parent with a smaller pid. */
  ghost predicate Tree(s: State)
  {
    && |s.procs| > INIT && Alive(s.procs[INIT].state) && s.procs[INIT].pid == 1
    && (forall p :: 0 <= p < |s.procs| ==> s.procs[p].pid < s.nextpid)
    && (forall p :: 0 < p < |s.procs| && !s.procs[p].state.Unused? ==> s.procs[p].pid > 1)
    && (forall p :: 0 < p < |s.procs| && (Alive(s.procs[p].state) || s.procs[p].state.Zombie?) ==> KinOk(s, p))
  }

  /** Asleep on its own address. */
  ghost predicate Waiting(procs: seq<Proc>, q: int)
  {
    0 <= q < |procs| && procs[q].state.Sleeping? && procs[q].chan == Self(q)
  }

  predicate InWait(pc: Pc)
  {
    pc == Switching(AfterWait) || pc == Off(AfterWait)
  }

  ghost predicate Waits(s: State)
  {
    && |s.procs| <= |s.threads|
    && (forall q :: 0 <= q < |s.procs| && s.procs[q].state.Sleeping? && InWait(s.threads[q].pc) ==>
          s.procs[q].chan == Self(q))
    && (forall q, z :: Waiting(s.procs, q) ==> !ZombieChild(s.procs, q, z))
    && (forall t :: 0 <= t < |s.procs| && (s.threads[t].pc.ExitWoke? || s.threads[t].pc.ExitGiven?) ==>
          !Waiting(s.procs, s.procs[t].parent))
    && (forall t, q :: 0 <= t < |s.procs| && s.threads[t].pc.ExitGiven? && 0 <= q < |s.procs| ==>
          s.procs[q].parent != t)
  }

  ghost predicate Family(s: State)
  {
    Forks(s) && Tree(s) && Waits(s)
  }

  // ---------------------------------------------------------------- steps without family events

  predicate CalmProc(p: Proc, q: Proc)
  {
    && q.pid == p.pid && q.parent == p.parent && q.kstack == p.kstack
    && (q.state == p.state || (Alive(p.state) && Alive(q.state)))
    && (q.state.Sleeping? ==> q.chan.Obj? || (p.state.Sleeping? && q.chan == p.chan))
  }

  predicate CalmThread(t: Thread, u: Thread)
  {
    && u.np == t.np && (u.pc.ForkReady? ==> t.pc.ForkReady?)
    && (u.pc.ExitWoke? ==> t.pc.ExitWoke?) && (u.pc.ExitGiven? ==> t.pc.ExitGiven?)
    && (InWait(u.pc) ==> InWait(t.pc))
  }

  ghost predicate Calm(s: State, s': State)
  {
    && |s'.procs| == |s.procs| && |s'.threads| == |s.threads| && s'.nextpid == s.nextpid
    && (forall p :: 0 <= p < |s.procs| ==> CalmProc(s.procs[p], s'.procs[p]))
    && (forall t :: 0 <= t < |s.threads| ==> CalmThread(s.threads[t], s'.threads[t]))
    && |s.procs| <= |s.threads|
    && (forall p :: 0 <= p < |s.procs| && s'.procs[p].state.Sleeping? && InWait(s'.threads[p].pc) ==>
          s.procs[p].state.Sleeping? && s'.procs[p].chan == s.procs[p].chan)
  }

  lemma CalmForks(s: State, s': State)
    requires Forks(s) && Calm(s, s')
    ensures Forks(s')
  {
  }

  lemma CalmTree(s: State, s': State)
    requires Tree(s) && Calm(s, s')
    ensures Tree(s')
  {
  }

  lemma CalmWaiting(s: State, s': State, q: int)
    requires Calm(s, s') && Waiting(s'.procs, q)
    ensures Waiting(s.procs, q)
  {
  }

  lemma CalmWaits(s: State, s': State)
    requires Waits(s) && Calm(s, s')
    ensures Waits(s')
  {
    forall q | 0 <= q < |s'.procs| && s'.procs[q].state.Sleeping? && InWait(s'.threads[q].pc)
      ensures s'.procs[q].chan == Self(q)
    {
      assert CalmThread(s.threads[q], s'.threads[q]);
    }
    forall q, z | Waiting(s'.procs, q) ensures !ZombieChild(s'.procs, q, z) {
      CalmWaiting(s, s', q);
      assert 0 <= z < |s.procs| ==> CalmProc(s.procs[z], s'.procs[z]);
      assert !ZombieChild(s.procs, q, z);
    }
    forall t | 0 <= t < |s'.procs| && (s'.threads[t].pc.ExitWoke? || s'.threads[t].pc.ExitGiven?)
      ensures !Waiting(s'.procs, s'.procs[t].parent)
    {
      assert CalmThread(s.threads[t], s'.threads[t]) && CalmProc(s.procs[t], s'.procs[t]);
      if Waiting(s'.procs, s'.procs[t].parent) {
        CalmWaiting(s, s', s'.procs[t].parent);
      }
    }
    forall t, q | 0 <= t < |s'.procs| && s'.threads[t].pc.ExitGiven? && 0 <= q < |s'.procs|
      ensures s'.procs[q].parent != t
    {
      assert CalmThread(s.threads[t], s'.threads[t]) && CalmProc(s.procs[q], s'.procs[q]);
    }
  }

  lemma CalmFamily(s: State, s': State)
    requires Family(s) && Calm(s, s')
    ensures Family(s')
  {
    CalmForks(s, s');
    CalmTree(s, s');
    CalmWaits(s, s');
  }

  /** The thread on c changes, keeping its np and entering none of the marked points; processes change calmly. */
  lemma CalmHere(s: State, s': State, c: int, th: Thread)
    requires Base(s) && Here(s, c) && s'.threads == s.threads[s.cpus[c].thread := th] && CalmThread(Me(s, c), th)
    requires |s'.procs| == |s.procs| && s'.nextpid == s.nextpid
    requires forall p :: 0 <= p < |s.procs| ==> CalmProc(s.procs[p], s'.procs[p])
    requires !InWait(th.pc)
    requires forall p :: 0 <= p < |s.procs| && s'.procs[p].state.Sleeping? && p != s.cpus[c].thread ==>
        s.procs[p].state.Sleeping? && s'.procs[p].chan == s.procs[p].chan
    ensures Calm(s, s')
  {
  }

  /** Only the thread on c changes. */
  lemma CalmSame(s: State, s': State, c: int, th: Thread)
    requires Base(s) && Here(s, c) && s'.threads == s.threads[s.cpus[c].thread := th] && CalmThread(Me(s, c), th)
    requires s'.procs == s.procs && s'.nextpid == s.nextpid
    requires !InWait(th.pc)
    ensures Calm(s, s')
  {
  }

  lemma CalmLks(s: State, s': State, c: int, x: int, b: bool)
    requires Base(s)
    requires Interrupts(s, s', c, b) || LkAcquire(s, s', c, x) || LkRelease(s, s', c) || Change(s, s', c, x, b)
    ensures Calm(s, s')
  {
    hide Base, Calm;
    CalmSame(s, s', c, s'.threads[s.cpus[c].thread]);
  }

  lemma CalmEnters(s: State, s': State, c: int, x: int)
    requires Base(s)
    requires WakeStart(s, s', c, x) || Unlock(s, s', c) || KillStart(s, s', c, x) || YieldStart(s, s', c)
    ensures Calm(s, s')
  {
    hide Base, Calm;
    CalmSame(s, s', c, s'.threads[s.cpus[c].thread]);
  }

  lemma CalmSleep(s: State, s': State, c: int, x: int)
    requires Base(s)
    requires SleepStart(s, s', c, x) || SleepLock(s, s', c) || SleepRelease(s, s', c) || SleepRelock(s, s', c)
    ensures Calm(s, s')
  {
    hide Base, Calm;
    CalmSame(s, s', c, s'.threads[s.cpus[c].thread]);
  }

  lemma CalmSched(s: State, s': State, c: int)
    requires Base(s)
    requires SchedStart(s, s', c) || SchedBack(s, s', c) || SchedEnd(s, s', c)
    ensures Calm(s, s')
  {
    hide Base, Calm;
    CalmSame(s, s', c, s'.threads[s.cpus[c].thread]);
  }

  lemma CalmCalls(s: State, s': State, c: int)
    requires Base(s)
    requires AllocStart(s, s', c) || ExitStart(s, s', c) || WaitStart(s, s', c)
    ensures Calm(s, s')
  {
    hide Base, Calm;
    CalmSame(s, s', c, s'.threads[s.cpus[c].thread]);
  }

  lemma CalmScan(s: State, s': State, c: int)
    requires Base(s) && (WaitAgain(s, s', c) || SleepTidy(s, s', c) || WakeScan(s, s', c))
    ensures Calm(s, s')
  {
    hide Base, Calm;
    if !WakeScan(s, s', c) {
      Executes(s, c);
    }
    CalmHere(s, s', c, s'.threads[s.cpus[c].thread]);
  }

  lemma CalmTurns(s: State, s': State, c: int)
    requires Base(s) && (YieldSet(s, s', c) || SleepSet(s, s', c))
    ensures Calm(s, s')
  {
    hide Base, Calm;
    Executes(s, c);
    CalmHere(s, s', c, s'.threads[s.cpus[c].thread]);
  }

  lemma CalmKillScan(s: State, s': State, c: int, p: int)
    requires Base(s) && KillScan(s, s', c, p)
    ensures Calm(s, s')
  {
    hide Base, Calm;
    CalmHere(s, s', c, s'.threads[s.cpus[c].thread]);
  }

  lemma CalmPick(s: State, s': State, c: int, p: int)
    requires Base(s) && SchedPick(s, s', c, p)
    ensures Calm(s, s')
  {
  }

  lemma CalmSwitch(s: State, s': State, c: int)
    requires Base(s) && (SwitchOut(s, s', c) || SwitchIn(s, s', c))
    ensures Calm(s, s')
  {
    RoleHere(s, c);
    if SwitchIn(s, s', c) {
      SlotHere(s, Me(s, c).pc.p);
    } else {
      assert RoleOk(|s.procs|, s.guard, |s.procs| + c, s.threads[|s.procs| + c]);
    }
  }
}
