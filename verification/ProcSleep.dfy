/**
What a process finds when sleep returns, over whole runs: its lock held again, its interrupt setting and no
channel.  In between other CPUs take any number of steps; none of them touches its thread but the scheduler
that resumes it.
*/
module ProcSleep {
  import opened ProcMachine
  import opened ProcPlaces
  import opened ProcWho
  import opened ProcBase
  import opened ProcProof
  import opened ProcKill

  /** From where sleep or wait sets p->chan to where it clears it. */
  predicate Bedded(pc: Pc)
  {
    pc.Tidy? || pc.WaitBack? || ((pc.Switching? || pc.Off?) && (pc.k.AfterSleep? || pc.k.AfterWait?))
  }

  ghost predicate ChanOk(s: State, t: int)
  {
    0 <= t < |s.procs| && t < |s.threads| && !Bedded(s.threads[t].pc) ==> s.procs[t].chan == NoChan
  }

  // ---------------------------------------------------------------- steps of other CPUs

  ghost predicate SameSizes(s: State, s': State)
  {
    |s'.procs| == |s.procs| && |s'.threads| == |s.threads| && |s'.cpus| == |s.cpus|
  }

  /** Thread t, its channel and its CPU are as before. */
  ghost predicate Untouched(s: State, s': State, t: int)
  {
    && SameSizes(s, s') && 0 <= t < |s.procs| && t < |s.threads|
    && s'.threads[t] == s.threads[t] && s'.procs[t].chan == s.procs[t].chan
    && (0 <= s.threads[t].at < |s.cpus| ==> s'.cpus[s.threads[t].at] == s.cpus[s.threads[t].at])
  }

  /** A scheduler has switched to thread t, which goes on with the interrupt setting it had. */
  ghost predicate Resumed(s: State, s': State, t: int)
  {
    && SameSizes(s, s') && 0 <= t < |s.procs| && t < |s.threads| && s.threads[t].pc.Off?
    && s'.procs[t].chan == s.procs[t].chan
    && var c := s'.threads[t].at;
       && 0 <= c < |s.cpus| && s'.threads[t] == s.threads[t].(pc := Resume(s.threads[t].pc.k), at := c)
       && (!s.threads[t].pc.k.AfterFork? ==> s'.cpus[c].intena == s.threads[t].saved)
  }

  /** Slot t is not alive, and its thread is set up or torn down. */
  ghost predicate Recast(s: State, s': State, t: int)
  {
    && SameSizes(s, s') && 0 <= t < |s.procs| && t < |s.threads| && !Alive(s.procs[t].state)
    && s'.procs[t].chan == s.procs[t].chan
    && !Bedded(s.threads[t].pc) && !Bedded(s'.threads[t].pc)
  }

  ghost predicate Elsewhere(s: State, c: int, t: int)
  {
    && Here(s, c) && s.cpus[c].thread != t && 0 <= t < |s.procs| && t < |s.threads| && s.threads[t].at != c
  }

  lemma AtOther(s: State, c: int, t: int)
    requires Base(s) && Here(s, c) && s.cpus[c].thread != t && 0 <= t < |s.procs|
    ensures Elsewhere(s, c, t)
  {
    assert AtOk(s, t);
  }

  lemma ScanApart(s: State, s': State, c: int, x: int, t: int)
    requires (WakeScan(s, s', c) || KillScan(s, s', c, x)) && Elsewhere(s, c, t)
    ensures Untouched(s, s', t)
  {
  }

  lemma LkApart(s: State, s': State, c: int, x: int, b: bool, t: int)
    requires (Interrupts(s, s', c, b) || LkAcquire(s, s', c, x) || LkRelease(s, s', c) || Change(s, s', c, x, b))
    requires Elsewhere(s, c, t)
    ensures Untouched(s, s', t)
  {
  }

  lemma LockingApart(s: State, s': State, c: int, x: int, b: bool, t: int)
    requires Locking(s, s', c, x, b) && Elsewhere(s, c, t)
    ensures Untouched(s, s', t)
  {
    hide WakeScan, KillScan, Interrupts, LkAcquire, LkRelease, Change;
    if WakeScan(s, s', c) || KillScan(s, s', c, x) {
      ScanApart(s, s', c, x, t);
    } else if Interrupts(s, s', c, b) || LkAcquire(s, s', c, x) || LkRelease(s, s', c) || Change(s, s', c, x, b) {
      LkApart(s, s', c, x, b, t);
    }
  }

  lemma SetApart(s: State, s': State, c: int, t: int)
    requires (YieldSet(s, s', c) || SleepSet(s, s', c) || SleepTidy(s, s', c)) && Elsewhere(s, c, t)
    ensures Untouched(s, s', t)
  {
  }

  lemma RelockApart(s: State, s': State, c: int, t: int)
    requires (SleepRelease(s, s', c) || SleepRelock(s, s', c)) && Elsewhere(s, c, t)
    ensures Untouched(s, s', t)
  {
  }

  lemma DozingApart(s: State, s': State, c: int, x: int, t: int)
    requires Dozing(s, s', c, x) && Elsewhere(s, c, t)
    ensures Untouched(s, s', t)
  {
    hide YieldSet, SleepSet, SleepTidy, SleepRelease, SleepRelock;
    if YieldSet(s, s', c) || SleepSet(s, s', c) || SleepTidy(s, s', c) {
      SetApart(s, s', c, t);
    } else if SleepRelease(s, s', c) || SleepRelock(s, s', c) {
      RelockApart(s, s', c, t);
    }
  }

  lemma SwitchApart(s: State, s': State, c: int, t: int)
    requires (SwitchOut(s, s', c) || SwitchIn(s, s', c)) && Elsewhere(s, c, t)
    ensures Untouched(s, s', t) || Resumed(s, s', t)
  {
  }

  lemma PickApart(s: State, s': State, c: int, x: int, t: int)
    requires SchedPick(s, s', c, x) && Elsewhere(s, c, t)
    ensures Untouched(s, s', t)
  {
  }

  lemma SchedulingApart(s: State, s': State, c: int, x: int, t: int)
    requires Scheduling(s, s', c, x) && Elsewhere(s, c, t)
    ensures Untouched(s, s', t) || Resumed(s, s', t)
  {
    hide SwitchOut, SwitchIn, SchedPick;
    if SwitchOut(s, s', c) || SwitchIn(s, s', c) {
      SwitchApart(s, s', c, t);
    } else if SchedPick(s, s', c, x) {
      PickApart(s, s', c, x, t);
    }
  }

  lemma FillingApart(s: State, s': State, c: int, x: int, b: bool, t: int)
    requires Base(s) && Forks(s) && (AllocStack(s, s', c, x, b) || ForkFail(s, s', c, x) || ForkParent(s, s', c, x))
    requires Elsewhere(s, c, t)
    ensures Untouched(s, s', t) || Recast(s, s', t)
  {
    hide Base, Forks;
    NpHere(s, c);
    SlotHere(s, x);
  }

  lemma TakeApart(s: State, s': State, c: int, x: int, t: int)
    requires (AllocTake(s, s', c, x) || ForkRun(s, s', c)) && Elsewhere(s, c, t)
    ensures Untouched(s, s', t)
  {
  }

  lemma ForkingApart(s: State, s': State, c: int, x: int, b: bool, t: int)
    requires Base(s) && Forks(s) && Forking(s, s', c, x, b) && Elsewhere(s, c, t)
    ensures Untouched(s, s', t) || Recast(s, s', t)
  {
    hide Base, Forks, AllocStack, ForkFail, ForkParent, AllocTake, ForkRun;
    if AllocStack(s, s', c, x, b) || ForkFail(s, s', c, x) || ForkParent(s, s', c, x) {
      FillingApart(s, s', c, x, b, t);
    } else if AllocTake(s, s', c, x) || ForkRun(s, s', c) {
      TakeApart(s, s', c, x, t);
    }
  }

  lemma ReapApart(s: State, s': State, c: int, z: int, t: int)
    requires Base(s) && WaitReap(s, s', c, z) && Elsewhere(s, c, t)
    ensures Untouched(s, s', t) || Recast(s, s', t)
  {
    hide Base;
    SlotHere(s, z);
  }

  lemma GiveApart(s: State, s': State, c: int, t: int)
    requires (ExitWake(s, s', c) || ExitGive(s, s', c)) && Elsewhere(s, c, t)
    ensures Untouched(s, s', t)
  {
  }

  lemma WaitApart(s: State, s': State, c: int, t: int)
    requires WaitScan(s, s', c) && Elsewhere(s, c, t)
    ensures Untouched(s, s', t)
  {
    hide HasKids, ZombieChild;
  }

  lemma TurnApart(s: State, s': State, c: int, t: int)
    requires (WaitAgain(s, s', c) || ExitSet(s, s', c)) && Elsewhere(s, c, t)
    ensures Untouched(s, s', t)
  {
  }

  lemma LeavingApart(s: State, s': State, c: int, x: int, t: int)
    requires Base(s) && Leaving(s, s', c, x) && Elsewhere(s, c, t)
    ensures Untouched(s, s', t) || Recast(s, s', t)
  {
    hide Base, WaitReap, WaitScan, WaitAgain, ExitWake, ExitGive, ExitSet;
    if WaitReap(s, s', c, x) {
      ReapApart(s, s', c, x, t);
    } else if WaitScan(s, s', c) {
      WaitApart(s, s', c, t);
    } else if WaitAgain(s, s', c) || ExitSet(s, s', c) {
      TurnApart(s, s', c, t);
    } else if ExitWake(s, s', c) || ExitGive(s, s', c) {
      GiveApart(s, s', c, t);
    }
  }

  /** A step of another CPU leaves thread t alone, resumes it, or recasts a slot that is not alive. */
  lemma Apart(s: State, s': State, c: int, x: int, b: bool, t: int)
    requires Base(s) && Forks(s) && Step(s, s', c, x, b) && Here(s, c) && s.cpus[c].thread != t && 0 <= t < |s.procs|
    ensures Untouched(s, s', t) || Resumed(s, s', t) || Recast(s, s', t)
  {
    hide Base, Forks, Locking, Dozing, Scheduling, Forking, Leaving, Step, Untouched, Resumed, Recast;
    AtOther(s, c, t);
    StepKinds(s, s', c, x, b);
    if Locking(s, s', c, x, b) {
      LockingApart(s, s', c, x, b, t);
    } else if Dozing(s, s', c, x) {
      DozingApart(s, s', c, x, t);
    } else if Scheduling(s, s', c, x) {
      SchedulingApart(s, s', c, x, t);
    } else if Forking(s, s', c, x, b) {
      ForkingApart(s, s', c, x, b, t);
    } else {
      LeavingApart(s, s', c, x, t);
    }
  }

  // ---------------------------------------------------------------- channels

  lemma ApartChan(s: State, s': State, t: int)
    requires ChanOk(s, t) && (Untouched(s, s', t) || Resumed(s, s', t) || Recast(s, s', t))
    ensures ChanOk(s', t)
  {
  }

  lemma LockingChan(s: State, s': State, c: int, x: int, b: bool)
    requires Locking(s, s', c, x, b) && ChanOk(s, s.cpus[c].thread)
    ensures ChanOk(s', s.cpus[c].thread)
  {
  }

  lemma DozingChan(s: State, s': State, c: int, x: int)
    requires Dozing(s, s', c, x) && ChanOk(s, s.cpus[c].thread)
    ensures ChanOk(s', s.cpus[c].thread)
  {
  }

  lemma SchedulingChan(s: State, s': State, c: int, x: int)
    requires Base(s) && Scheduling(s, s', c, x) && ChanOk(s, s.cpus[c].thread)
    ensures ChanOk(s', s.cpus[c].thread)
  {
    hide Base;
    RoleHere(s, c);
  }

  lemma ForkingChan(s: State, s': State, c: int, x: int, b: bool)
    requires Base(s) && Forks(s) && Forking(s, s', c, x, b) && ChanOk(s, s.cpus[c].thread)
    ensures ChanOk(s', s.cpus[c].thread)
  {
    hide Base, Forks;
  }

  lemma ReapChan(s: State, s': State, c: int, z: int)
    requires WaitReap(s, s', c, z) && ChanOk(s, s.cpus[c].thread)
    ensures ChanOk(s', s.cpus[c].thread)
  {
  }

  lemma LeavingChan(s: State, s': State, c: int, x: int)
    requires Leaving(s, s', c, x) && ChanOk(s, s.cpus[c].thread)
    ensures ChanOk(s', s.cpus[c].thread)
  {
    hide WaitReap, HasKids, ZombieChild;
    if WaitReap(s, s', c, x) {
      ReapChan(s, s', c, x);
    }
  }

  lemma StepHere(s: State, s': State, c: int, x: int, b: bool)
    requires Step(s, s', c, x, b)
    ensures Here(s, c)
  {
  }

  lemma StepChan(s: State, s': State, t: int)
    requires Base(s) && Forks(s) && Next(s, s') && 0 <= t < |s.procs| && ChanOk(s, t)
    ensures ChanOk(s', t)
  {
    hide Base, Forks, Locking, Dozing, Scheduling, Forking, Leaving, Step, ChanOk, Untouched, Resumed, Recast;
    var c, x, b :| Step(s, s', c, x, b);
    StepHere(s, s', c, x, b);
    if s.cpus[c].thread != t {
      Apart(s, s', c, x, b, t);
      ApartChan(s, s', t);
      return;
    }
    StepKinds(s, s', c, x, b);
    if Locking(s, s', c, x, b) {
      LockingChan(s, s', c, x, b);
    } else if Dozing(s, s', c, x) {
      DozingChan(s, s', c, x);
    } else if Scheduling(s, s', c, x) {
      SchedulingChan(s, s', c, x);
    } else if Forking(s, s', c, x, b) {
      ForkingChan(s, s', c, x, b);
    } else {
      LeavingChan(s, s', c, x);
    }
  }

  /** In every reachable state a process that is not inside sleep or wait has no channel. */
  lemma {:induction false} NoChannel(run: seq<State>, i: int, t: int)
    requires IsRun(run) && 0 <= i < |run| && 0 <= t < |run[0].procs|
    ensures |run[i].procs| == |run[0].procs| && ChanOk(run[i], t)
    decreases i
  {
    hide Next, ChanOk, Start, Forks, Base;
    if i == 0 {
      StartChan(run[0], t);
    } else {
      NoChannel(run, i - 1, t);
      RunChange(run, i - 1, t);
      InvRun(run, i - 1);
      HasForks(run[i - 1]);
      StepChan(run[i - 1], run[i], t);
    }
  }

  lemma StartChan(s: State, t: int)
    requires Start(s) && 0 <= t < |s.procs|
    ensures ChanOk(s, t)
  {
  }

  // ---------------------------------------------------------------- sleep

  /** Thread t is on a CPU whose intena is on. */
  ghost predicate On(s: State, t: int, on: bool)
    requires 0 <= t < |s.threads|
  {
    var c := s.threads[t].at;
    0 <= c < |s.cpus| && s.cpus[c].intena == on
  }

  /** Thread t is inside sleep, which it called with lock l and interrupt setting on. */
  ghost predicate Sleeps(s: State, t: int, l: int, on: bool)
  {
    && 0 <= t < |s.procs| && t < |s.threads| && l != -1
    && var th := s.threads[t];
       match th.pc
       case Spin(_) => th.l == l && On(s, t, on)
       case Falling(_) => th.l == l && On(s, t, on)
       case Sleepy(_, back) => back == l && On(s, t, on)
       case Switching(k) => k == AfterSleep(l) && On(s, t, on)
       case Off(k) => k == AfterSleep(l) && th.saved == on
       case Tidy(back) => back == l && On(s, t, on)
       case Relock(want) => want == l && s.procs[t].chan == NoChan && 0 <= th.at < |s.cpus| && s.cpus[th.at].ief == on
       case _ => false
  }

  /** Thread t is back from sleep. */
  ghost predicate Back(s: State, t: int, l: int, on: bool)
  {
    && 0 <= t < |s.procs| && t < |s.threads|
    && s.threads[t].pc.Code? && s.threads[t].l == l && s.procs[t].chan == NoChan && On(s, t, on)
  }

  lemma ApartSleep(s: State, s': State, t: int, l: int, on: bool)
    requires Base(s) && Sleeps(s, t, l, on) && (Untouched(s, s', t) || Resumed(s, s', t) || Recast(s, s', t))
    ensures Sleeps(s', t, l, on)
  {
    hide Base;
    SlotHere(s, t);
  }

  lemma WakingSleep(s: State, s': State, c: int, l: int, on: bool)
    requires Base(s) && (SleepTidy(s, s', c) || SleepRelock(s, s', c)) && Sleeps(s, s.cpus[c].thread, l, on)
    ensures Sleeps(s', s.cpus[c].thread, l, on) || Back(s', s.cpus[c].thread, l, on)
  {
    hide Base;
    RoleHere(s, c);
  }

  lemma DozingSleep(s: State, s': State, c: int, x: int, l: int, on: bool)
    requires Base(s) && Dozing(s, s', c, x) && Here(s, c) && Sleeps(s, s.cpus[c].thread, l, on)
    ensures Sleeps(s', s.cpus[c].thread, l, on) || Back(s', s.cpus[c].thread, l, on)
  {
    hide Base, SleepTidy, SleepRelock, Back;
    if SleepTidy(s, s', c) || SleepRelock(s, s', c) {
      WakingSleep(s, s', c, l, on);
    } else {
      RoleHere(s, c);
    }
  }

  lemma SchedulingSleep(s: State, s': State, c: int, x: int, l: int, on: bool)
    requires Base(s) && Scheduling(s, s', c, x) && Here(s, c) && Sleeps(s, s.cpus[c].thread, l, on)
    ensures Sleeps(s', s.cpus[c].thread, l, on)
  {
    hide Base;
    RoleHere(s, c);
  }

  lemma NotFromSleep(s: State, s': State, c: int, x: int, b: bool, l: int, on: bool)
    requires Locking(s, s', c, x, b) || Forking(s, s', c, x, b) || Leaving(s, s', c, x)
    ensures Here(s, c) && !Sleeps(s, s.cpus[c].thread, l, on)
  {
  }

  lemma SleepStep(s: State, s': State, t: int, l: int, on: bool)
    requires Base(s) && Forks(s) && Next(s, s') && Sleeps(s, t, l, on)
    ensures Sleeps(s', t, l, on) || Back(s', t, l, on)
  {
    hide Base, Forks, Locking, Dozing, Scheduling, Forking, Leaving, Step, Untouched, Resumed, Recast, Back;
    var c, x, b :| Step(s, s', c, x, b);
    StepHere(s, s', c, x, b);
    if s.cpus[c].thread != t {
      Apart(s, s', c, x, b, t);
      ApartSleep(s, s', t, l, on);
    } else {
      StepKinds(s, s', c, x, b);
      if Dozing(s, s', c, x) {
        DozingSleep(s, s', c, x, l, on);
      } else if Scheduling(s, s', c, x) {
        SchedulingSleep(s, s', c, x, l, on);
      } else {
        NotFromSleep(s, s', c, x, b, l, on);
      }
    }
  }

  lemma {:induction false} StillAsleep(run: seq<State>, i: int, j: int, t: int, l: int, on: bool)
    requires IsRun(run) && 0 <= i <= j < |run| && Sleeps(run[i], t, l, on)
    requires forall k :: i < k < j ==> t < |run[k].threads| && !run[k].threads[t].pc.Code?
    ensures Sleeps(run[j], t, l, on) || Back(run[j], t, l, on)
    decreases j
  {
    hide IsRun, Sleeps, Next, Base, Forks;
    if i < j {
      StillAsleep(run, i, j - 1, t, l, on);
      assert j - 1 > i ==> !Back(run[j - 1], t, l, on);
      RunStep(run, j - 1);
      SleepStep(run[j - 1], run[j], t, l, on);
    }
  }

  lemma RunStep(run: seq<State>, i: int)
    requires IsRun(run) && 0 <= i < |run| - 1
    ensures Base(run[i]) && Forks(run[i]) && Next(run[i], run[i + 1])
  {
    hide Next, Start, Base, Forks;
    InvRun(run, i);
    HasForks(run[i]);
  }

  /** sleep called with lock l returns with l held again, with the interrupt setting it was called with, and with
      no channel, whatever other CPUs do meanwhile. */
  lemma SleepReturns(run: seq<State>, i: int, j: int, c: int, ch: int)
    requires IsRun(run) && 0 <= i < j < |run| && SleepStart(run[i], run[i + 1], c, ch)
    requires var t := run[i].cpus[c].thread;
      && (forall k :: i < k < j ==> t < |run[k].threads| && !run[k].threads[t].pc.Code?)
      && t < |run[j].threads| && run[j].threads[t].pc.Code?
    ensures var t, l := run[i].cpus[c].thread, Me(run[i], c).l;
      && l != -1 && run[j].threads[t].l == l && t < |run[j].procs| && run[j].procs[t].chan == NoChan
      && var d := run[j].threads[t].at;
         && 0 <= d < |run[j].cpus| && run[j].cpus[d].thread == t && l in run[j].lks && run[j].lks[l] == d
         && run[j].cpus[d].intena == run[i].cpus[c].intena
  {
    hide IsRun, Next, Base, Forks;
    var t, l, on := run[i].cpus[c].thread, Me(run[i], c).l, run[i].cpus[c].intena;
    InvRun(run, i);
    RoleHere(run[i], c);
    assert Sleeps(run[i + 1], t, l, on);
    StillAsleep(run, i + 1, j, t, l, on);
    InvRun(run, j);
    SlotHere(run[j], t);
  }

  // ---------------------------------------------------------------- wait

  /** Thread t is inside wait's loop. */
  ghost predicate InLoop(s: State, t: int)
  {
    && 0 <= t < |s.procs| && t < |s.threads|
    && var pc := s.threads[t].pc;
       pc.Scanning? || pc.WaitBack? || pc == Switching(AfterWait) || pc == Off(AfterWait)
  }

  /** Thread t's scan reaps a zombie child, or finds that there are no children or that it was killed. */
  ghost predicate Answered(s: State, s': State, c: int, t: int)
  {
    && Here(s, c) && s.cpus[c].thread == t && t < |s.procs|
    && ((exists z :: WaitReap(s, s', c, z)) || (WaitScan(s, s', c) && (!HasKids(s.procs, t) || s.procs[t].killed)))
  }

  ghost predicate WaitEnds(s: State, s': State, t: int)
  {
    exists c :: Answered(s, s', c, t)
  }

  lemma ApartLoop(s: State, s': State, t: int)
    requires Base(s) && InLoop(s, t) && (Untouched(s, s', t) || Resumed(s, s', t) || Recast(s, s', t))
    ensures InLoop(s', t)
  {
    hide Base;
    SlotHere(s, t);
  }

  lemma LeavingLoop(s: State, s': State, c: int, x: int)
    requires Leaving(s, s', c, x) && Here(s, c) && InLoop(s, s.cpus[c].thread)
    ensures InLoop(s', s.cpus[c].thread) || Answered(s, s', c, s.cpus[c].thread)
  {
    hide HasKids, ZombieChild;
  }

  lemma SchedulingLoop(s: State, s': State, c: int, x: int)
    requires Base(s) && Scheduling(s, s', c, x) && Here(s, c) && InLoop(s, s.cpus[c].thread)
    ensures InLoop(s', s.cpus[c].thread)
  {
    hide Base;
    RoleHere(s, c);
  }

  lemma NotFromLoop(s: State, s': State, c: int, x: int, b: bool)
    requires Locking(s, s', c, x, b) || Forking(s, s', c, x, b) || Dozing(s, s', c, x)
    ensures Here(s, c) && !InLoop(s, s.cpus[c].thread)
  {
  }

  lemma LoopStep(s: State, s': State, t: int)
    requires Base(s) && Forks(s) && Next(s, s') && InLoop(s, t)
    ensures InLoop(s', t) || WaitEnds(s, s', t)
  {
    hide Base, Forks, Locking, Dozing, Scheduling, Forking, Leaving, Step, Untouched, Resumed, Recast, Answered;
    var c, x, b :| Step(s, s', c, x, b);
    StepHere(s, s', c, x, b);
    if s.cpus[c].thread != t {
      Apart(s, s', c, x, b, t);
      ApartLoop(s, s', t);
    } else {
      StepKinds(s, s', c, x, b);
      if Leaving(s, s', c, x) {
        LeavingLoop(s, s', c, x);
      } else if Scheduling(s, s', c, x) {
        SchedulingLoop(s, s', c, x);
      } else {
        NotFromLoop(s, s', c, x, b);
      }
    }
  }

  /** wait returns only from a scan: it has reaped a zombie child, or has no children, or was killed. */
  lemma {:induction false} WaitReturns(run: seq<State>, i: int, j: int, t: int)
    requires IsRun(run) && 0 <= i <= j < |run| && InLoop(run[i], t)
    ensures InLoop(run[j], t) || exists k :: i <= k < j && WaitEnds(run[k], run[k + 1], t)
    decreases j
  {
    hide IsRun, InLoop, WaitEnds, Next, Base, Forks;
    if i < j {
      WaitReturns(run, i, j - 1, t);
      if InLoop(run[j - 1], t) {
        RunStep(run, j - 1);
        LoopStep(run[j - 1], run[j], t);
      }
    }
  }
}
