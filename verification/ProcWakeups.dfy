/**
Lost wakeups.  A thread that makes a condition true owes the sleepers on its channel a wakeup
until it has made its wakeup1 scan.  Sleep's exchange of locks loses none of them: a process
asleep on a true condition has an awake debtor, until the last one falls asleep or exits itself.
*/
module ProcWakeups {
  import opened ProcMachine
  import opened ProcPlaces
  import opened ProcWho
  import opened ProcBase

  predicate Awake(st: ProcState)
  {
    st.Running? || st.Runnable?
  }

  /** Thread t owes a wakeup on ch, and is a scheduler or a process that is running or can be picked. */
  ghost predicate Debtor(s: State, t: int, ch: int)
  {
    0 <= t < |s.threads| && ch in s.threads[t].dirty && (t < |s.procs| ==> Awake(s.procs[t].state))
  }

  ghost predicate AsleepOn(s: State, p: int, ch: int)
  {
    0 <= p < |s.procs| && s.procs[p].state.Sleeping? && s.procs[p].chan == Obj(ch)
  }

  /** Nobody sleeps on a true condition without an awake thread that owes the wakeup. */
  ghost predicate NoneLost(s: State)
  {
    forall p, ch :: AsleepOn(s, p, ch) && ch in s.conds && s.conds[ch] ==> exists t :: Debtor(s, t, ch)
  }

  /** A thread on its way into sleep: its condition is false, or somebody else made it true and still owes. */
  ghost predicate BedOk(s: State, t: int)
    requires 0 <= t < |s.threads|
  {
    var pc := s.threads[t].pc;
    && (pc.Spin? || pc.Falling? ==> pc.ch in s.conds && !s.conds[pc.ch])
    && (pc.Sleepy? ==> pc.ch in s.conds && (s.conds[pc.ch] ==> exists u :: u != t && Debtor(s, u, pc.ch)))
  }

  ghost predicate Beds(s: State)
  {
    && (forall t :: 0 <= t < |s.threads| ==> BedOk(s, t))
    && (forall p, ch :: AsleepOn(s, p, ch) ==> ch in s.conds)
  }

  predicate SteadyThread(t: Thread, u: Thread, conds: map<int, bool>)
  {
    && (u.pc.Spin? || u.pc.Falling? ==>
          || ((t.pc.Spin? || t.pc.Falling?) && t.pc.ch == u.pc.ch)
          || (u.pc.ch in conds && !conds[u.pc.ch]))
    && (u.pc.Sleepy? ==> (t.pc.Falling? || t.pc.Sleepy?) && t.pc.ch == u.pc.ch)
  }

  predicate SteadyProc(p: Proc, q: Proc, t: Thread, u: Thread)
  {
    && (q.state.Sleeping? && q.chan.Obj? ==> p.state.Sleeping? && q.chan == p.chan)
    && (Awake(p.state) ==> Awake(q.state) && t.dirty <= u.dirty)
  }

  /** No condition changes, no awake thread leaves or pays, and nobody falls asleep on a channel. */
  ghost predicate Steady(s: State, s': State)
  {
    && s'.conds == s.conds && |s'.threads| == |s.threads| && |s'.procs| == |s.procs| && |s.procs| <= |s.threads|
    && (forall t :: 0 <= t < |s.threads| ==> SteadyThread(s.threads[t], s'.threads[t], s.conds))
    && (forall p :: 0 <= p < |s.procs| ==> SteadyProc(s.procs[p], s'.procs[p], s.threads[p], s'.threads[p]))
    && (forall t :: |s.procs| <= t < |s.threads| ==> s.threads[t].dirty <= s'.threads[t].dirty)
  }

  lemma SteadyBeds(s: State, s': State)
    requires Beds(s) && Steady(s, s')
    ensures Beds(s')
  {
    forall t | 0 <= t < |s'.threads| ensures BedOk(s', t) {
      assert BedOk(s, t) && SteadyThread(s.threads[t], s'.threads[t], s.conds);
      var pc := s'.threads[t].pc;
      if pc.Sleepy? && s.conds[pc.ch] {
        var u :| u != t && Debtor(s, u, pc.ch);
        assert Debtor(s', u, pc.ch);
      }
    }
    forall p, ch | AsleepOn(s', p, ch) ensures ch in s'.conds {
      assert AsleepOn(s, p, ch);
    }
  }

  lemma SteadyLost(s: State, s': State)
    requires NoneLost(s) && Steady(s, s')
    ensures NoneLost(s')
  {
    forall p, ch | AsleepOn(s', p, ch) && ch in s'.conds && s'.conds[ch] ensures exists t :: Debtor(s', t, ch) {
      assert AsleepOn(s, p, ch);
      var t :| Debtor(s, t, ch);
      assert Debtor(s', t, ch);
    }
  }

  // ---------------------------------------------------------------- the two steps that matter

  /** The thread that changes a condition is awake. */
  lemma ChangerAwake(s: State, s': State, c: int, ch: int, v: bool)
    requires Base(s) && Change(s, s', c, ch, v)
    ensures v ==> Debtor(s', s.cpus[c].thread, ch)
    ensures forall t, x :: Debtor(s, t, x) ==> Debtor(s', t, x)
  {
    hide Base;
    if HereProc(s, c) {
      Executes(s, c);
    }
  }

  /** A condition changes only under its lock, so nobody is between testing it and taking ptable.lock. */
  lemma ChangeBeds(s: State, s': State, c: int, ch: int, v: bool)
    requires Base(s) && Beds(s) && Change(s, s', c, ch, v)
    ensures Beds(s')
  {
    hide Base;
    var me := s.cpus[c].thread;
    ChangerAwake(s, s', c, ch, v);
    forall t | 0 <= t < |s'.threads| ensures BedOk(s', t) {
      assert BedOk(s, t);
      var pc := s.threads[t].pc;
      if (pc.Spin? || pc.Falling?) && pc.ch == ch {
        OneHolder(s, c, t, ch);
      } else if pc.Sleepy? && pc.ch == ch {
        assert v ==> me != t && Debtor(s', me, ch);
      } else if pc.Sleepy? && s.conds[pc.ch] {
        var u :| u != t && Debtor(s, u, pc.ch);
        assert Debtor(s', u, pc.ch);
      }
    }
    forall p, x | AsleepOn(s', p, x) ensures x in s'.conds {
      assert AsleepOn(s, p, x);
    }
  }

  lemma ChangeLost(s: State, s': State, c: int, ch: int, v: bool)
    requires Base(s) && NoneLost(s) && Change(s, s', c, ch, v)
    ensures NoneLost(s')
  {
    hide Base;
    ChangerAwake(s, s', c, ch, v);
    forall p, x | AsleepOn(s', p, x) && x in s'.conds && s'.conds[x] ensures exists t :: Debtor(s', t, x) {
      assert AsleepOn(s, p, x);
      if x == ch {
        assert Debtor(s', s.cpus[c].thread, x);
      } else {
        var t :| Debtor(s, t, x);
        assert Debtor(s', t, x);
      }
    }
  }

  lemma OneHolder(s: State, c: int, t: int, ch: int)
    requires Base(s) && Here(s, c) && Me(s, c).l != -1 && ch in s.guard && s.guard[ch] == Me(s, c).l
    requires 0 <= t < |s.threads| && (s.threads[t].pc.Spin? || s.threads[t].pc.Falling?) && s.threads[t].pc.ch == ch
    ensures t == s.cpus[c].thread
  {
    RoleHere(s, c);
    assert RoleOk(|s.procs|, s.guard, t, s.threads[t]) && HolderOk(s, t) && AtOk(s, t);
  }

  /** Nobody is just falling asleep while wakeup1 scans, for that needs ptable.lock too. */
  lemma WakeScanBeds(s: State, s': State, c: int)
    requires Base(s) && Beds(s) && WakeScan(s, s', c)
    ensures Beds(s')
  {
    hide Base;
    forall t | 0 <= t < |s'.threads| ensures BedOk(s', t) {
      assert BedOk(s, t);
      if s.threads[t].pc.Sleepy? {
        OneInside(s, c, t);
      }
    }
    forall p, x | AsleepOn(s', p, x) ensures x in s'.conds {
      assert s'.procs[p] == Wake(s.procs[p], Obj(Me(s, c).pc.ch));
      assert AsleepOn(s, p, x);
    }
  }

  /** wakeup1 pays for every sleeper on its channel, and no other channel's debt is touched. */
  lemma WakeScanLost(s: State, s': State, c: int)
    requires NoneLost(s) && WakeScan(s, s', c)
    ensures NoneLost(s')
  {
    var ch := Me(s, c).pc.ch;
    forall p, x | AsleepOn(s', p, x) && x in s'.conds && s'.conds[x] ensures exists t :: Debtor(s', t, x) {
      assert s'.procs[p] == Wake(s.procs[p], Obj(ch));
      assert AsleepOn(s, p, x) && x != ch;
      var t :| Debtor(s, t, x);
      if t < |s.procs| {
        assert s'.procs[t] == Wake(s.procs[t], Obj(ch));
      }
      assert Debtor(s', t, x);
    }
  }

  // ---------------------------------------------------------------- debtors that leave

  /** CPU c's process falls asleep or becomes a zombie. */
  ghost predicate Leaves(s: State, s': State, c: int)
  {
    && HereProc(s, c) && |s'.procs| == |s.procs|
    && (|| SleepSet(s, s', c) || ExitSet(s, s', c)
        || (WaitScan(s, s', c) && s'.procs[s.cpus[c].thread].state.Sleeping?))
  }

  /** CPU c's process is the last awake one to owe a wakeup on a channel where somebody sleeps
      although the condition is true. */
  ghost predicate LastDebtor(s: State, c: int)
    requires HereProc(s, c)
  {
    exists q, ch ::
      && AsleepOn(s, q, ch) && ch in s.conds && s.conds[ch] && ch in Me(s, c).dirty
      && forall t :: Debtor(s, t, ch) ==> t == s.cpus[c].thread
  }

  /** The last debtor of a sleeper leaves without having paid. */
  ghost predicate Deserts(s: State, s': State)
  {
    exists c :: Leaves(s, s', c) && LastDebtor(s, c)
  }

  /** What the three kinds of leaving have in common. */
  lemma LeaveEffect(s: State, s': State, c: int)
    requires Base(s) && Leaves(s, s', c)
    ensures HereProc(s, c) && |s'.procs| == |s.procs|
    ensures var p := s.cpus[c].thread;
      && |s.procs| <= |s.threads| && p < |s.procs| && HasLock(Me(s, c).pc)
      && s'.conds == s.conds && |s'.threads| == |s.threads| && s'.threads[p].pc.Switching?
      && s'.threads[p].dirty == s.threads[p].dirty
      && (forall t :: 0 <= t < |s.threads| && t != p ==> s'.threads[t] == s.threads[t])
      && (forall q :: 0 <= q < |s.procs| && q != p ==> s'.procs[q] == s.procs[q])
      && s.procs[p].state.Running? && !Awake(s'.procs[p].state)
      && (forall ch :: AsleepOn(s', p, ch) ==> Me(s, c).pc.Sleepy? && Me(s, c).pc.ch == ch)
  {
    hide Base, ZombieChild, HasKids;
    RoleHere(s, c);
    SlotHere(s, s.cpus[c].thread);
    Executes(s, c);
  }

  lemma LeaveBeds(s: State, s': State, c: int)
    requires Base(s) && Beds(s) && Leaves(s, s', c)
    ensures Beds(s')
  {
    hide Base, Leaves;
    LeaveEffect(s, s', c);
    var me := s.cpus[c].thread;
    forall t | 0 <= t < |s'.threads| ensures BedOk(s', t) {
      assert BedOk(s, t);
      if t != me && s.threads[t].pc.Sleepy? {
        OneInside(s, c, t);
      }
    }
    forall p, ch | AsleepOn(s', p, ch) ensures ch in s'.conds {
      assert BedOk(s, me);
      assert p != me ==> AsleepOn(s, p, ch);
    }
  }

  /** Leaving strands a sleeper exactly when it takes away the last debtor. */
  lemma LeaveLost(s: State, s': State, c: int)
    requires Base(s) && Beds(s) && NoneLost(s) && Leaves(s, s', c)
    ensures NoneLost(s') <==> !LastDebtor(s, c)
  {
    hide Base, Leaves;
    LeaveEffect(s, s', c);
    var me := s.cpus[c].thread;
    assert forall t, x :: Debtor(s', t, x) <==> Debtor(s, t, x) && t != me;
    if LastDebtor(s, c) {
      var q, ch :| AsleepOn(s, q, ch) && ch in s.conds && s.conds[ch] && ch in Me(s, c).dirty
                   && forall t :: Debtor(s, t, ch) ==> t == me;
      assert AsleepOn(s', q, ch);
      assert !NoneLost(s');
    } else {
      forall p, x | AsleepOn(s', p, x) && x in s'.conds && s'.conds[x] ensures exists t :: Debtor(s', t, x) {
        if p == me {
          assert BedOk(s, me);
          var u :| u != me && Debtor(s, u, x);
          assert Debtor(s', u, x);
        } else {
          assert AsleepOn(s, p, x);
          var t :| Debtor(s, t, x);
          if t == me {
            var u :| Debtor(s, u, x) && u != me;
            assert Debtor(s', u, x);
          } else {
            assert Debtor(s', t, x);
          }
        }
      }
    }
  }

  // ---------------------------------------------------------------- all the others

  lemma SteadyHere(s: State, s': State, c: int, th: Thread)
    requires Here(s, c) && |s.procs| <= |s.threads| && s'.threads == s.threads[s.cpus[c].thread := th]
    requires s'.conds == s.conds && |s'.procs| == |s.procs| && SteadyThread(Me(s, c), th, s.conds)
    requires Me(s, c).dirty <= th.dirty
    requires forall p :: 0 <= p < |s.procs| ==> SteadyProc(s.procs[p], s'.procs[p], s.threads[p], s'.threads[p])
    ensures Steady(s, s')
  {
  }

  lemma SteadyLks(s: State, s': State, c: int, x: int, b: bool)
    requires |s.procs| <= |s.threads|
    requires Interrupts(s, s', c, b) || LkAcquire(s, s', c, x) || LkRelease(s, s', c) || Unlock(s, s', c)
    ensures Steady(s, s')
  {
  }

  lemma SteadyEnters(s: State, s': State, c: int, x: int)
    requires |s.procs| <= |s.threads|
    requires WakeStart(s, s', c, x) || KillStart(s, s', c, x) || YieldStart(s, s', c) || SchedStart(s, s', c)
    ensures Steady(s, s')
  {
    hide Steady;
    SteadyHere(s, s', c, s'.threads[s.cpus[c].thread]);
  }

  lemma SteadyCalls(s: State, s': State, c: int, x: int)
    requires |s.procs| <= |s.threads|
    requires AllocStart(s, s', c) || ForkLock(s, s', c, x) || ExitStart(s, s', c) || WaitStart(s, s', c)
    ensures Steady(s, s')
  {
    hide Steady;
    SteadyHere(s, s', c, s'.threads[s.cpus[c].thread]);
  }

  lemma SteadySleep(s: State, s': State, c: int, x: int)
    requires |s.procs| <= |s.threads|
    requires SleepStart(s, s', c, x) || SleepLock(s, s', c) || SleepRelease(s, s', c) || SleepRelock(s, s', c)
    ensures Steady(s, s')
  {
  }

  lemma SteadySets(s: State, s': State, c: int)
    requires |s.procs| <= |s.threads|
    requires YieldSet(s, s', c) || SleepTidy(s, s', c)
    ensures Steady(s, s')
  {
    hide Steady;
    SteadyHere(s, s', c, s'.threads[s.cpus[c].thread]);
  }

  lemma SteadySched(s: State, s': State, c: int, p: int)
    requires |s.procs| <= |s.threads|
    requires SchedPick(s, s', c, p) || SchedBack(s, s', c) || SchedEnd(s, s', c) || KillScan(s, s', c, p)
    ensures Steady(s, s')
  {
    hide Steady;
    SteadyHere(s, s', c, s'.threads[s.cpus[c].thread]);
  }

  lemma SteadyWait(s: State, s': State, c: int)
    requires |s.procs| <= |s.threads| && (WaitScan(s, s', c) || WaitAgain(s, s', c)) && !Leaves(s, s', c)
    ensures Steady(s, s')
  {
    hide Steady, ZombieChild, HasKids;
    SteadyHere(s, s', c, s'.threads[s.cpus[c].thread]);
  }

  lemma SteadyExitWake(s: State, s': State, c: int)
    requires |s.procs| <= |s.threads| && (ExitWake(s, s', c) || ForkRun(s, s', c))
    ensures Steady(s, s')
  {
  }

  lemma SteadyGive(s: State, s': State, c: int)
    requires |s.procs| <= |s.threads| && ExitGive(s, s', c)
    ensures Steady(s, s')
  {
  }

  lemma SteadyAlloc(s: State, s': State, c: int, e: int)
    requires |s.procs| <= |s.threads| && (AllocTake(s, s', c, e) || ForkParent(s, s', c, e))
    ensures Steady(s, s')
  {
    hide Steady;
    SteadyHere(s, s', c, s'.threads[s.cpus[c].thread]);
  }

  /** Two threads change: the one on c and the thread of slot e, on its way into nothing. */
  lemma SteadySlot(s: State, s': State, c: int, e: int, th: Thread, off: Thread)
    requires Here(s, c) && 0 <= e < |s.procs| <= |s.threads| && e != s.cpus[c].thread
    requires s'.threads == s.threads[s.cpus[c].thread := th][e := off] && SteadyThread(Me(s, c), th, s.conds)
    requires s'.conds == s.conds && Me(s, c).dirty <= th.dirty && !Awake(s.procs[e].state) && IsOff(off.pc)
    requires |s'.procs| == |s.procs| && (forall p :: 0 <= p < |s.procs| && p != e ==> s'.procs[p] == s.procs[p])
    requires !s'.procs[e].state.Sleeping?
    ensures Steady(s, s')
  {
  }

  lemma SteadyStack(s: State, s': State, c: int, e: int, ok: bool)
    requires Base(s) && Forks(s) && AllocStack(s, s', c, e, ok)
    ensures Steady(s, s')
  {
    hide Base, Forks, Steady;
    RoleHere(s, c);
    Executes(s, c);
    SlotHere(s, e);
    NpHere(s, c);
    SteadySlot(s, s', c, e, s'.threads[s.cpus[c].thread], s'.threads[e]);
  }

  lemma SteadyFail(s: State, s': State, c: int, e: int)
    requires Base(s) && Forks(s) && ForkFail(s, s', c, e)
    ensures Steady(s, s')
  {
    hide Base, Forks, Steady;
    RoleHere(s, c);
    Executes(s, c);
    SlotHere(s, e);
    NpHere(s, c);
    SteadySlot(s, s', c, e, s'.threads[s.cpus[c].thread], s'.threads[e]);
  }

  lemma SteadyReap(s: State, s': State, c: int, z: int)
    requires Base(s) && WaitReap(s, s', c, z)
    ensures Steady(s, s')
  {
    hide Base, Steady;
    RoleHere(s, c);
    SlotHere(s, z);
    ReapedIsOff(s, s', c, z);
    SteadySlot(s, s', c, z, s'.threads[s.cpus[c].thread], s'.threads[z]);
  }

  lemma SteadySwitch(s: State, s': State, c: int)
    requires Base(s) && (SwitchOut(s, s', c) || SwitchIn(s, s', c))
    ensures Steady(s, s')
  {
    hide Base;
    SlotHere(s, INIT);
    if SwitchIn(s, s', c) {
      SlotHere(s, Me(s, c).pc.p);
    }
  }
}
