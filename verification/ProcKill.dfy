/**
pids and kill over whole runs: a pid is given out once, and kill's mark is set by kill and by nothing else,
and stays until wait reaps the slot.  kill looks at pids only, so it can also mark a slot that holds no process yet.
*/
module ProcKill {
  import opened ProcMachine
  import opened ProcWho
  import opened ProcBase
  import opened ProcFamily
  import opened ProcWakeups
  import opened ProcProof
  import opened ProcRace
  import opened ProcStrand

  /** The slot holds a process that has been let go by fork and is not reaped. */
  predicate Formed(p: Proc)
  {
    !p.state.Unused? && !p.state.Embryo?
  }

  /** A formed process keeps its pid. */
  predicate SameProc(p: Proc, q: Proc)
  {
    Formed(p) ==> Formed(q) && q.pid == p.pid
  }

  ghost predicate FirstFree(s: State, p: int)
  {
    0 <= p < |s.procs| && s.procs[p].state.Unused? && forall q :: 0 <= q < p ==> !s.procs[q].state.Unused?
  }

  /** Slot p keeps its pid, or it is the first unused slot and gets the next one. */
  ghost predicate SamePid(s: State, s': State, p: int)
    requires 0 <= p < |s.procs| == |s'.procs|
  {
    && s.nextpid <= s'.nextpid
    && (|| s'.procs[p].pid == s.procs[p].pid
        || (FirstFree(s, p) && s'.procs[p].pid == s.nextpid < s'.nextpid))
  }

  /** Slot p keeps its mark and its process. */
  ghost predicate SameSlot(s: State, s': State, p: int)
  {
    && |s'.procs| == |s.procs|
    && (0 <= p < |s.procs| ==>
          s'.procs[p].killed == s.procs[p].killed && SameProc(s.procs[p], s'.procs[p]) && SamePid(s, s', p))
  }

  /** The step is kill's scan finding slot p. */
  ghost predicate Kills(s: State, s': State, p: int)
  {
    exists c :: KillScan(s, s', c, p)
  }

  /** The step is wait reaping slot p. */
  ghost predicate Reaps(s: State, s': State, p: int)
  {
    exists c :: WaitReap(s, s', c, p)
  }

  /** A slot's mark and process change only when kill finds the slot or wait reaps it. */
  ghost predicate Changes(s: State, s': State, p: int)
  {
    && |s'.procs| == |s.procs|
    && (0 <= p < |s.procs| ==>
          || SameSlot(s, s', p)
          || (Kills(s, s', p) && s'.procs[p].killed && SameProc(s.procs[p], s'.procs[p]) && SamePid(s, s', p))
          || (Reaps(s, s', p) && !s'.procs[p].killed && s'.procs[p].pid == 0 && s.nextpid <= s'.nextpid))
  }

  /** kill's scan: the first slot with the pid is marked and no longer asleep, and nothing else changes. */
  lemma KillMarks(s: State, s': State, c: int, p: int)
    requires KillScan(s, s', c, p)
    ensures Here(s, c) && Me(s, c).pc.Killing? && |s'.procs| == |s.procs|
    ensures var pid := Me(s, c).pc.pid;
      forall q :: 0 <= q < |s.procs| ==>
        var a, b := s.procs[q], s'.procs[q];
        if a.pid == pid && (forall r :: 0 <= r < q ==> s.procs[r].pid != pid)
        then b == Proc(if a.state.Sleeping? then Runnable else a.state, pid, a.parent, a.chan, a.kstack, true)
        else b == a
  {
  }

  // ---------------------------------------------------------------- every step

  lemma KillChange(s: State, s': State, c: int, x: int, p: int)
    requires KillScan(s, s', c, x)
    ensures Changes(s, s', p)
  {
    if p == x && 0 <= x < |s.procs| {
      assert Kills(s, s', x);
    }
  }

  lemma WakeChange(s: State, s': State, c: int, p: int)
    requires WakeScan(s, s', c)
    ensures SameSlot(s, s', p)
  {
  }

  lemma LkChange(s: State, s': State, c: int, x: int, b: bool, p: int)
    requires Interrupts(s, s', c, b) || LkAcquire(s, s', c, x) || LkRelease(s, s', c) || Change(s, s', c, x, b)
    ensures SameSlot(s, s', p)
  {
  }

  lemma LockingChange(s: State, s': State, c: int, x: int, b: bool, p: int)
    requires Locking(s, s', c, x, b)
    ensures Changes(s, s', p)
  {
    hide KillScan, WakeScan, Interrupts, LkAcquire, LkRelease, Change;
    if KillScan(s, s', c, x) {
      KillChange(s, s', c, x, p);
    } else if WakeScan(s, s', c) {
      WakeChange(s, s', c, p);
    } else if Interrupts(s, s', c, b) || LkAcquire(s, s', c, x) || LkRelease(s, s', c) || Change(s, s', c, x, b) {
      LkChange(s, s', c, x, b, p);
    }
  }

  lemma FallChange(s: State, s': State, c: int, p: int)
    requires YieldSet(s, s', c) || SleepSet(s, s', c) || SleepTidy(s, s', c)
    ensures SameSlot(s, s', p)
  {
  }

  lemma DozingChange(s: State, s': State, c: int, x: int, p: int)
    requires Dozing(s, s', c, x)
    ensures SameSlot(s, s', p)
  {
    hide YieldSet, SleepSet, SleepTidy;
    if YieldSet(s, s', c) || SleepSet(s, s', c) || SleepTidy(s, s', c) {
      FallChange(s, s', c, p);
    }
  }

  lemma SwitchChange(s: State, s': State, c: int, p: int)
    requires SwitchOut(s, s', c) || SwitchIn(s, s', c)
    ensures SameSlot(s, s', p)
  {
  }

  lemma PickChange(s: State, s': State, c: int, x: int, p: int)
    requires SchedPick(s, s', c, x)
    ensures SameSlot(s, s', p)
  {
  }

  lemma SchedulingChange(s: State, s': State, c: int, x: int, p: int)
    requires Scheduling(s, s', c, x)
    ensures SameSlot(s, s', p)
  {
    hide SwitchOut, SwitchIn, SchedPick;
    if SwitchOut(s, s', c) || SwitchIn(s, s', c) {
      SwitchChange(s, s', c, p);
    } else if SchedPick(s, s', c, x) {
      PickChange(s, s', c, x, p);
    }
  }

  lemma FillingChange(s: State, s': State, c: int, x: int, b: bool, p: int)
    requires Forks(s) && (AllocStack(s, s', c, x, b) || ForkFail(s, s', c, x) || ForkParent(s, s', c, x))
    ensures SameSlot(s, s', p)
  {
    hide Forks;
    NpHere(s, c);
  }

  lemma TakeChange(s: State, s': State, c: int, x: int, p: int)
    requires AllocTake(s, s', c, x) || ForkRun(s, s', c)
    ensures SameSlot(s, s', p)
  {
  }

  lemma ForkingChange(s: State, s': State, c: int, x: int, b: bool, p: int)
    requires Forks(s) && Forking(s, s', c, x, b)
    ensures SameSlot(s, s', p)
  {
    hide Forks, AllocTake, AllocStack, ForkFail, ForkParent, ForkRun;
    if AllocStack(s, s', c, x, b) || ForkFail(s, s', c, x) || ForkParent(s, s', c, x) {
      FillingChange(s, s', c, x, b, p);
    } else if AllocTake(s, s', c, x) || ForkRun(s, s', c) {
      TakeChange(s, s', c, x, p);
    }
  }

  lemma ReapChange(s: State, s': State, c: int, z: int, p: int)
    requires WaitReap(s, s', c, z)
    ensures Changes(s, s', p)
  {
    if p == z {
      assert Reaps(s, s', z);
    }
  }

  lemma WaitChange(s: State, s': State, c: int, p: int)
    requires WaitScan(s, s', c)
    ensures SameSlot(s, s', p)
  {
    hide HasKids, ZombieChild;
  }

  lemma GiveChange(s: State, s': State, c: int, p: int)
    requires ExitWake(s, s', c) || ExitGive(s, s', c)
    ensures SameSlot(s, s', p)
  {
  }

  lemma TurnChange(s: State, s': State, c: int, p: int)
    requires ExitSet(s, s', c) || WaitAgain(s, s', c)
    ensures SameSlot(s, s', p)
  {
  }

  lemma LeavingChange(s: State, s': State, c: int, x: int, p: int)
    requires Leaving(s, s', c, x)
    ensures Changes(s, s', p)
  {
    hide WaitReap, WaitScan, WaitAgain, ExitWake, ExitGive, ExitSet;
    if WaitReap(s, s', c, x) {
      ReapChange(s, s', c, x, p);
    } else if WaitScan(s, s', c) {
      WaitChange(s, s', c, p);
    } else if ExitWake(s, s', c) || ExitGive(s, s', c) {
      GiveChange(s, s', c, p);
    } else if ExitSet(s, s', c) || WaitAgain(s, s', c) {
      TurnChange(s, s', c, p);
    }
  }

  lemma StepChange(s: State, s': State, p: int)
    requires Forks(s) && Next(s, s')
    ensures Changes(s, s', p)
  {
    hide Forks, Locking, Dozing, Scheduling, Forking, Leaving, Step, Kills, Reaps;
    var c, x, b :| Step(s, s', c, x, b);
    StepKinds(s, s', c, x, b);
    if Locking(s, s', c, x, b) {
      LockingChange(s, s', c, x, b, p);
    } else if Dozing(s, s', c, x) {
      DozingChange(s, s', c, x, p);
    } else if Scheduling(s, s', c, x) {
      SchedulingChange(s, s', c, x, p);
    } else if Forking(s, s', c, x, b) {
      ForkingChange(s, s', c, x, b, p);
    } else {
      LeavingChange(s, s', c, x, p);
    }
  }

  lemma RunChange(run: seq<State>, i: int, p: int)
    requires IsRun(run) && 0 <= i < |run| - 1
    ensures Changes(run[i], run[i + 1], p)
  {
    hide Next, Start, Changes, Forks;
    InvRun(run, i);
    HasForks(run[i]);
    StepChange(run[i], run[i + 1], p);
  }

  // ---------------------------------------------------------------- pids

  /** Every pid in the table has been given out, and no two slots have the same, but for 0. */
  ghost predicate PidsOk(s: State)
  {
    && s.nextpid > 0 && (forall p :: 0 <= p < |s.procs| ==> 0 <= s.procs[p].pid < s.nextpid)
    && forall p, q :: 0 <= p < q < |s.procs| && s.procs[p].pid == s.procs[q].pid ==> s.procs[p].pid == 0
  }

  ghost predicate AllChange(s: State, s': State)
  {
    |s.procs| > 0 && forall p :: 0 <= p < |s.procs| ==> Changes(s, s', p)
  }

  lemma PidsStep(s: State, s': State)
    requires PidsOk(s) && AllChange(s, s')
    ensures PidsOk(s')
  {
    hide Kills, Reaps, SameProc;
    assert Changes(s, s', 0);
    forall p, q | 0 <= p < q < |s'.procs| && s'.procs[p].pid == s'.procs[q].pid ensures s'.procs[p].pid == 0 {
      assert Changes(s, s', p) && Changes(s, s', q);
    }
    forall p | 0 <= p < |s'.procs| ensures 0 <= s'.procs[p].pid < s'.nextpid {
      assert Changes(s, s', p);
    }
  }

  /** The pid n has been given out and is in no slot. */
  ghost predicate Spent(s: State, n: int)
  {
    0 < n < s.nextpid && forall p :: 0 <= p < |s.procs| ==> s.procs[p].pid != n
  }

  lemma SpentStep(s: State, s': State, n: int)
    requires Spent(s, n) && AllChange(s, s')
    ensures Spent(s', n)
  {
    hide Kills, Reaps, SameProc;
    assert Changes(s, s', 0);
    forall p | 0 <= p < |s'.procs| ensures s'.procs[p].pid != n {
      assert Changes(s, s', p);
    }
  }

  lemma RunChanges(run: seq<State>, i: int)
    requires IsRun(run) && 0 <= i < |run| - 1
    ensures AllChange(run[i], run[i + 1])
  {
    hide IsRun, Changes, Base, Beds, Forks, Waits;
    InvRun(run, i);
    var s, s' := run[i], run[i + 1];
    forall p | 0 <= p < |s.procs| ensures Changes(s, s', p) {
      RunChange(run, i, p);
    }
  }

  /** In every reachable state no two slots have the same pid, but for the pid 0 of reaped and unused ones. */
  lemma {:induction false} PidsDistinct(run: seq<State>, i: int)
    requires IsRun(run) && 0 <= i < |run|
    ensures PidsOk(run[i])
    decreases i
  {
    hide Next, AllChange;
    if i > 0 {
      PidsDistinct(run, i - 1);
      RunChanges(run, i - 1);
      PidsStep(run[i - 1], run[i]);
    }
  }

  lemma {:induction false} SpentStays(run: seq<State>, i: int, j: int, n: int)
    requires IsRun(run) && 0 <= i <= j < |run| && Spent(run[i], n)
    ensures Spent(run[j], n)
    decreases j
  {
    hide IsRun, AllChange, Spent;
    if i < j {
      SpentStays(run, i, j - 1, n);
      RunChanges(run, j - 1);
      SpentStep(run[j - 1], run[j], n);
    }
  }

  /** Once wait has reaped a process, its pid is in no slot again: kill and wait cannot meet it any more. */
  lemma ReapedGone(run: seq<State>, i: int, j: int, c: int, z: int, p: int)
    requires IsRun(run) && 0 <= i < j < |run| && WaitReap(run[i], run[i + 1], c, z)
    requires 0 <= p < |run[j].procs|
    ensures run[i].procs[z].pid > 0 && run[j].procs[p].pid != run[i].procs[z].pid
  {
    hide IsRun;
    InvRun(run, i);
    PidsDistinct(run, i);
    ReapSpends(run[i], run[i + 1], c, z);
    SpentStays(run, i + 1, j, run[i].procs[z].pid);
  }

  lemma ReapSpends(s: State, s': State, c: int, z: int)
    requires Inv(s) && PidsOk(s) && WaitReap(s, s', c, z)
    ensures s.procs[z].pid > 0 && Spent(s', s.procs[z].pid)
  {
    hide Base, Beds, Forks, Waits;
  }

  // ---------------------------------------------------------------- marks

  /** Once marked, a slot stays marked until wait has reaped it. */
  lemma {:induction false} MarkStays(run: seq<State>, i: int, j: int, p: int)
    requires IsRun(run) && 0 <= i <= j < |run| && 0 <= p < |run[i].procs| && run[i].procs[p].killed
    ensures |run[j].procs| == |run[i].procs|
    ensures run[j].procs[p].killed || exists k :: i <= k < j && Reaps(run[k], run[k + 1], p)
    decreases j
  {
    hide IsRun, Reaps, Kills;
    if i < j {
      MarkStays(run, i, j - 1, p);
      RunChange(run, j - 1, p);
    }
  }

  /** kill found slot p at step k: with the pid it has in run[j], or before any process was formed there. */
  ghost predicate Blamed(run: seq<State>, k: int, j: int, p: int)
    requires 0 <= k < j < |run|
  {
    && Kills(run[k], run[k + 1], p) && 0 <= p < |run[k].procs| && p < |run[j].procs|
    && (!Formed(run[k].procs[p]) || SameProc(run[k].procs[p], run[j].procs[p]))
  }

  ghost predicate Explained(run: seq<State>, j: int, p: int)
    requires 0 <= j < |run|
  {
    0 <= p < |run[j].procs| && run[j].procs[p].killed ==> exists k :: 0 <= k < j && Blamed(run, k, j, p)
  }

  lemma ExplainedStays(run: seq<State>, i: int, p: int)
    requires 0 <= i < |run| - 1 && Changes(run[i], run[i + 1], p) && Explained(run, i, p)
    ensures Explained(run, i + 1, p)
  {
    hide Kills, Reaps;
    if 0 <= p < |run[i].procs| && run[i + 1].procs[p].killed {
      if run[i].procs[p].killed {
        var k :| 0 <= k < i && Blamed(run, k, i, p);
        assert Blamed(run, k, i + 1, p);
      } else {
        assert Blamed(run, i, i + 1, p);
      }
    }
  }

  /** A mark comes from kill: the process was meant, or the slot was marked before it held a process. */
  lemma {:induction false} MarkComes(run: seq<State>, j: int, p: int)
    requires IsRun(run) && 0 <= j < |run|
    ensures Explained(run, j, p)
    decreases j
  {
    if j == 0 {
      assert Start(run[0]);
    } else {
      hide IsRun, Explained, Changes;
      MarkComes(run, j - 1, p);
      RunChange(run, j - 1, p);
      ExplainedStays(run, j - 1, p);
    }
  }

  /** The second case does happen: kill(0) finds an unused slot, and the process made there later, whose pid
      has not been given out yet, is born marked. */
  lemma BornMarked() returns (run: seq<State>, i: int)
    ensures IsRun(run) && 0 <= i < |run| && run[i].nextpid == 2
    ensures |run[|run| - 1].procs| == 2 && run[|run| - 1].procs[1] == Proc(Embryo, 2, -1, NoChan, false, true)
    ensures |run[i].procs| == 2 && run[i].procs[1].killed
  {
    hide Start;
    var s0 := InitRuns();
    run := ToInit();
    var s1 := Acquire(s0, 0, Killing(0));
    assert KillStart(s0, s1, 0, 0);
    run := Extend(run, s0, s1, 0, 0, false);
    var s2 := Go(s1, 0, Unlocking).(procs := s1.procs[1 := Struck(s1.procs[1])]);
    assert s1.procs[1].pid == 0 && s1.procs[0].pid == 1;
    assert KillScan(s1, s2, 0, 1);
    run := Extend(run, s1, s2, 0, 1, false);
    i := |run| - 1;
    var s3 := Release(s2, 0, Code);
    assert Unlock(s2, s3, 0);
    run := Extend(run, s2, s3, 0, 0, false);
    run := TakeSlot(run, s3);
  }

  lemma TakeSlot(run0: seq<State>, s3: State) returns (run: seq<State>)
    requires Steps(run0, s3)
    requires s3 == Machine(Proc(Running, 1, -1, NoChan, true, false), Proc(Unused, 0, -1, NoChan, false, true),
                           [CODE, NEVER, SCHED_OFF], Cpu(0, 0, 0, true, true), -1, 2)
    ensures IsRun(run) && run0 <= run
    ensures |run[|run| - 1].procs| == 2 && run[|run| - 1].procs[1] == Proc(Embryo, 2, -1, NoChan, false, true)
  {
    hide Start;
    var s4 := Acquire(s3, 0, Allocating);
    assert AllocStart(s3, s4, 0);
    run := Extend(run0, s3, s4, 0, 0, false);
    var s5 := SetProc(Set(s4, 0, Me(s4, 0).(pc := Unlocking, np := 1)), 1,
                      s4.procs[1].(state := Embryo, pid := s4.nextpid)).(nextpid := s4.nextpid + 1);
    assert s4.procs[1].state.Unused?;
    assert AllocTake(s4, s5, 0, 1);
    run := Extend(run, s4, s5, 0, 1, false);
  }
}
