/**
The family events: fork, exit and wait keep the process tree.
*/
module ProcEvents {
  import opened ProcMachine
  import opened ProcWho
  import opened ProcBase
  import opened ProcFamily

  // ---------------------------------------------------------------- fork

  lemma AllocTakeFamily(s: State, s': State, c: int, e: int)
    requires Base(s) && Family(s) && AllocTake(s, s', c, e)
    ensures Family(s')
  {
    hide Base, Forks, Tree, Waits;
    RoleHere(s, c);
    Executes(s, c);
    if exists q :: 0 <= q < |s.procs| && s.procs[q].state.Unused? {
      SlotHere(s, e);
      AllocTakeForks(s, s', c, e);
      AllocTakeTree(s, s', c, e);
      SlotWaits(s, s', c, e);
    } else {
      CalmSame(s, s', c, Me(s, c).(pc := Unlocking));
      CalmFamily(s, s');
    }
  }

  lemma AllocTakeForks(s: State, s': State, c: int, e: int)
    requires Base(s) && Forks(s) && Tree(s) && AllocTake(s, s', c, e)
    requires 0 <= e < |s.procs| && s.procs[e].state.Unused? && s.procs[e].parent == -1 && e != s.cpus[c].thread
    requires Me(s, c).np == -1 && |s.procs| <= |s.threads| && s.threads[e].np == -1
    ensures Forks(s')
  {
    hide Base, KinOk;
    forall t | 0 <= t < |s'.threads| && s'.threads[t].np != -1
      ensures NpOk(s', t) && (t != s.cpus[c].thread ==> s'.threads[t].np != e)
    {
      if t != s.cpus[c].thread {
        assert NpOk(s, t);
      }
    }
  }

  lemma AllocTakeTree(s: State, s': State, c: int, e: int)
    requires Base(s) && Tree(s) && AllocTake(s, s', c, e)
    requires 0 <= e < |s.procs| && s.procs[e].state.Unused?
    ensures Tree(s')
  {
  }

  /** Slot e changes and becomes neither a sleeper nor a zombie; other slots keep their records, and
      it gets no parent that is exiting. */
  ghost predicate SlotChange(s: State, s': State, c: int, e: int)
  {
    && Here(s, c) && 0 <= e < |s.procs| <= |s.threads| && |s'.procs| == |s.procs| && |s'.threads| == |s.threads|
    && (forall p :: 0 <= p < |s.procs| && p != e ==> s'.procs[p] == s.procs[p])
    && !s'.procs[e].state.Sleeping? && !s'.procs[e].state.Zombie?
    && (forall t :: 0 <= t < |s.threads| && t != e && t != s.cpus[c].thread ==> s'.threads[t] == s.threads[t])
    && !ExitPc(s'.threads[e].pc) && !ExitPc(s'.threads[s.cpus[c].thread].pc) && !InWait(s'.threads[s.cpus[c].thread].pc)
    && (s'.procs[e].parent == s.procs[e].parent || s'.procs[e].parent == -1
        || (s'.procs[e].parent == s.cpus[c].thread && s'.threads[s.cpus[c].thread] == Me(s, c)))
  }

  predicate ExitPc(pc: Pc)
  {
    pc.ExitWoke? || pc.ExitGiven?
  }

  lemma SlotWaits(s: State, s': State, c: int, e: int)
    requires Waits(s) && SlotChange(s, s', c, e)
    ensures Waits(s')
  {
    forall q | Waiting(s'.procs, q) ensures Waiting(s.procs, q) && q != e {
    }
    forall q, z | Waiting(s'.procs, q) ensures !ZombieChild(s'.procs, q, z) {
      assert !ZombieChild(s.procs, q, z);
    }
    forall t | 0 <= t < |s'.procs| && ExitPc(s'.threads[t].pc) ensures !Waiting(s'.procs, s'.procs[t].parent) {
      assert s'.threads[t] == s.threads[t] && s'.procs[t] == s.procs[t];
    }
  }

  lemma AllocStackFamily(s: State, s': State, c: int, e: int, ok: bool)
    requires Base(s) && Family(s) && AllocStack(s, s', c, e, ok)
    ensures Family(s')
  {
    hide Base, Forks, Tree, Waits;
    NpHere(s, c);
    RoleHere(s, c);
    Executes(s, c);
    SlotHere(s, e);
    FillingKept(s, s', c, e);
    SlotWaits(s, s', c, e);
  }

  /** Steps of fork on its embryo e that give it no parent. */
  lemma FillingKept(s: State, s': State, c: int, e: int)
    requires Base(s) && Forks(s) && Tree(s)
    requires Filling(s, c, e) && s.procs[e].parent == -1 && Me(s, c).at == c && s.threads[e].np == -1
    requires e != s.cpus[c].thread
    requires |s'.procs| == |s.procs| && |s'.threads| == |s.threads| && s'.nextpid == s.nextpid
    requires s'.procs[e].parent == -1 && s'.procs[e].pid == s.procs[e].pid && s'.threads[e].np == -1
    requires forall p :: 0 <= p < |s.procs| && p != e ==> s'.procs[p] == s.procs[p]
    requires forall t :: 0 <= t < |s.threads| && t != e && t != s.cpus[c].thread ==> s'.threads[t] == s.threads[t]
    requires var th := s'.threads[s.cpus[c].thread];
      th.pc == Me(s, c).pc && (th.np == -1 || (th.np == e && s'.procs[e].state.Embryo?))
    requires s'.procs[e].state.Embryo? || s'.procs[e].state.Unused?
    ensures Forks(s') && Tree(s')
  {
    hide Base, Tree;
    assert NpOk(s, s.cpus[c].thread);
    forall t | 0 <= t < |s'.threads| && s'.threads[t].np != -1 ensures NpOk(s', t) {
      assert NpOk(s, t);
    }
    TreeSlot(s, s', e);
  }

  lemma ForkFailFamily(s: State, s': State, c: int, e: int)
    requires Base(s) && Family(s) && ForkFail(s, s', c, e)
    ensures Family(s')
  {
    hide Base, Forks, Tree, Waits;
    NpHere(s, c);
    RoleHere(s, c);
    Executes(s, c);
    SlotHere(s, e);
    FillingKept(s, s', c, e);
    SlotWaits(s, s', c, e);
  }

  /** Slot e is not a live process or a zombie, before and after. */
  lemma TreeSlot(s: State, s': State, e: int)
    requires Tree(s) && |s'.procs| == |s.procs| && s'.nextpid == s.nextpid && 0 <= e < |s.procs|
    requires forall p :: 0 <= p < |s.procs| && p != e ==> s'.procs[p] == s.procs[p]
    requires s'.procs[e].pid == s.procs[e].pid && s.procs[e].state.Embryo?
    requires (s'.procs[e].state.Embryo? || s'.procs[e].state.Unused?)
    ensures Tree(s')
  {
  }

  lemma ForkParentFamily(s: State, s': State, c: int, e: int)
    requires Base(s) && Family(s) && ForkParent(s, s', c, e)
    ensures Family(s')
  {
    hide Base, Forks, Tree, Waits;
    RoleHere(s, c);
    Executes(s, c);
    SlotHere(s, e);
    NpHere(s, c);
    ForkParentForks(s, s', c, e);
    TreeSlot(s, s', e);
    SlotWaits(s, s', c, e);
  }

  lemma ForkParentForks(s: State, s': State, c: int, e: int)
    requires Forks(s) && ForkParent(s, s', c, e) && NpOk(s, s.cpus[c].thread)
    ensures Forks(s')
  {
  }

  lemma ForkLockFamily(s: State, s': State, c: int, e: int)
    requires Base(s) && Family(s) && ForkLock(s, s', c, e)
    ensures Family(s')
  {
    hide Base, Forks, Tree, Waits;
    RoleHere(s, c);
    NpHere(s, c);
    SlotHere(s, e);
    ForkLockForks(s, s', c, e);
    TreeSlot(s, s', e);
    SlotWaits(s, s', c, e);
  }

  lemma ForkLockForks(s: State, s': State, c: int, e: int)
    requires Forks(s) && ForkLock(s, s', c, e) && NpOk(s, s.cpus[c].thread)
    ensures Forks(s')
  {
  }

  lemma ForkRunFamily(s: State, s': State, c: int)
    requires Base(s) && Family(s) && ForkRun(s, s', c)
    ensures Family(s')
  {
    hide Base, Forks, Tree, Waits;
    RoleHere(s, c);
    Executes(s, c);
    var e := Me(s, c).np;
    NpHere(s, c);
    SlotHere(s, e);
    ForkRunForks(s, s', c);
    ForkRunTree(s, s', c);
    SlotWaits(s, s', c, e);
  }

  lemma ForkRunForks(s: State, s': State, c: int)
    requires Forks(s) && ForkRun(s, s', c) && NpOk(s, s.cpus[c].thread) && s.procs[s.cpus[c].thread].state.Running?
    ensures Forks(s')
  {
  }

  lemma ForkRunTree(s: State, s': State, c: int)
    requires Tree(s) && ForkRun(s, s', c) && NpOk(s, s.cpus[c].thread) && s.procs[s.cpus[c].thread].state.Running?
    ensures Tree(s')
  {
  }

  // ---------------------------------------------------------------- exit

  lemma WokenCalm(s: State, s1: State, chan: Chan)
    requires |s.procs| <= |s.threads| && s1 == s.(procs := Woken(s.procs, chan))
    ensures Calm(s, s1) && (forall q :: chan == Self(q) ==> !Waiting(s1.procs, q))
  {
  }

  lemma ExitWakeFamily(s: State, s': State, c: int)
    requires Base(s) && Family(s) && ExitWake(s, s', c)
    ensures Family(s')
  {
    hide Base, Family, Calm, Woken;
    var me := s.cpus[c].thread;
    SlotHere(s, me);
    var s1 := s.(procs := s'.procs);
    WokenCalm(s, s1, Self(s.procs[me].parent));
    CalmFamily(s, s1);
    assert CalmProc(s.procs[me], s1.procs[me]) by { CalmAt(s, s1, me); }
    PcFamily(s1, s', c, ExitWoke);
  }

  lemma CalmAt(s: State, s1: State, p: int)
    requires Calm(s, s1) && 0 <= p < |s.procs|
    ensures |s1.procs| == |s.procs| && CalmProc(s.procs[p], s1.procs[p])
  {
  }

  /** Nothing that Forks reads has changed. */
  lemma ForksKept(s: State, s': State)
    requires Forks(s) && |s'.procs| == |s.procs| && |s'.threads| == |s.threads|
    requires forall t :: 0 <= t < |s.threads| ==>
      s'.threads[t].np == s.threads[t].np && (s'.threads[t].pc.ForkReady? ==> s.threads[t].pc.ForkReady?)
    requires forall p :: 0 <= p < |s.procs| ==>
      && s'.procs[p].pid == s.procs[p].pid && s'.procs[p].kstack == s.procs[p].kstack
      && s'.procs[p].parent == s.procs[p].parent
      && s'.procs[p].state.Embryo? == s.procs[p].state.Embryo?
    ensures Forks(s')
  {
  }

  lemma TreeKept(s: State, s': State)
    requires Tree(s) && |s'.procs| == |s.procs| && s'.nextpid == s.nextpid
    requires forall p :: 0 <= p < |s.procs| ==>
      && s'.procs[p].pid == s.procs[p].pid && s'.procs[p].parent == s.procs[p].parent
      && (s'.procs[p].state == s.procs[p].state || (Alive(s'.procs[p].state) && Alive(s.procs[p].state)))
    ensures Tree(s')
  {
  }

  /** The thread on c moves to another point; an exiting one has woken its parent. */
  lemma PcFamily(s: State, s': State, c: int, pc: Pc)
    requires Family(s) && HereProc(s, c) && s' == Go(s, c, pc)
    requires pc.ExitWoke? || pc.ExitGiven?
    requires !Waiting(s.procs, s.procs[s.cpus[c].thread].parent)
    requires pc.ExitGiven? ==> forall q :: 0 <= q < |s.procs| ==> s.procs[q].parent != s.cpus[c].thread
    ensures Family(s')
  {
    ForksKept(s, s');
    TreeKept(s, s');
  }

  lemma ExitGiveFamily(s: State, s': State, c: int)
    requires Base(s) && Family(s) && ExitGive(s, s', c)
    ensures Family(s')
  {
    hide Base, Forks, Tree, Waits, Reparented;
    var me := s.cpus[c].thread;
    RoleHere(s, c);
    Executes(s, c);
    var s1 := s.(procs := s'.procs);
    GiveForks(s, s1, c);
    GiveTree(s, s1, c);
    SlotHere(s, me);
    forall t | 0 <= t < |s.procs| && ExitPc(s.threads[t].pc) ensures t == me {
      OneInside(s, c, t);
    }
    GiveWaits(s, s1, c);
    GiveDone(s, s1, c);
    PcFamily(s1, s', c, ExitGiven);
  }

  /** s1 is s after the exiting process on c has given its children to init. */
  ghost predicate Gave(s: State, s1: State, c: int)
  {
    && HereProc(s, c) && Me(s, c).pc.ExitWoke? && Me(s, c).np == -1 && s.cpus[c].thread != INIT
    && s.procs[s.cpus[c].thread].state.Running?
    && s1 == s.(procs := Reparented(s.procs, s.cpus[c].thread))
  }

  lemma GaveAt(s: State, s1: State, c: int, p: int)
    requires Gave(s, s1, c) && 0 <= p < |s.procs|
    ensures var me := s.cpus[c].thread;
      && s1.procs[p].pid == s.procs[p].pid && s1.procs[p].kstack == s.procs[p].kstack
      && s1.procs[p].parent == (if s.procs[p].parent == me then INIT else s.procs[p].parent)
      && (s1.procs[p].state == s.procs[p].state || (s.procs[p].state.Sleeping? && s1.procs[p].state.Runnable?))
      && s1.procs[p].chan == s.procs[p].chan
    ensures (exists z :: ZombieChild(s.procs, s.cpus[c].thread, z)) ==> !Waiting(s1.procs, INIT)
  {
  }

  lemma GiveForks(s: State, s1: State, c: int)
    requires Forks(s) && Gave(s, s1, c)
    ensures Forks(s1)
  {
    hide Reparented;
    forall p | 0 <= p < |s.procs|
      ensures s1.procs[p].pid == s.procs[p].pid && s1.procs[p].kstack == s.procs[p].kstack
      ensures s1.procs[p].state.Embryo? == s.procs[p].state.Embryo?
      ensures s.procs[p].state.Embryo? ==> s1.procs[p].parent == s.procs[p].parent
    {
      GaveAt(s, s1, c, p);
    }
    forall t | 0 <= t < |s1.threads| && s1.threads[t].np != -1 ensures NpOk(s1, t) {
      assert NpOk(s, t);
    }
  }

  lemma GiveTree(s: State, s1: State, c: int)
    requires Tree(s) && Gave(s, s1, c)
    ensures Tree(s1)
  {
    hide Reparented;
    GaveAt(s, s1, c, INIT);
    forall p | 0 <= p < |s1.procs|
      ensures s1.procs[p].pid < s1.nextpid && (p > 0 && !s1.procs[p].state.Unused? ==> s1.procs[p].pid > 1)
      ensures p > 0 && (Alive(s1.procs[p].state) || s1.procs[p].state.Zombie?) ==> KinOk(s1, p)
    {
      GaveAt(s, s1, c, p);
      if p > 0 && (Alive(s1.procs[p].state) || s1.procs[p].state.Zombie?) {
        assert KinOk(s, p);
        GaveAt(s, s1, c, s.procs[p].parent);
      }
    }
  }

  lemma GiveWaiting(s: State, s1: State, c: int, q: int)
    requires Gave(s, s1, c) && Waiting(s1.procs, q)
    ensures Waiting(s.procs, q)
  {
  }

  lemma GiveWaits(s: State, s1: State, c: int)
    requires Waits(s) && Tree(s) && Gave(s, s1, c)
    requires forall t :: 0 <= t < |s.procs| && ExitPc(s.threads[t].pc) ==> t == s.cpus[c].thread
    ensures Waits(s1)
  {
    hide Reparented;
    var me := s.cpus[c].thread;
    forall q | 0 <= q < |s1.procs|
      ensures s1.procs[q].chan == s.procs[q].chan && (s1.procs[q].state.Sleeping? ==> s.procs[q].state.Sleeping?)
    {
      GaveAt(s, s1, c, q);
    }
    forall q, z | Waiting(s1.procs, q) ensures !ZombieChild(s1.procs, q, z) {
      GiveNoZombie(s, s1, c, q, z);
    }
    GiveDone(s, s1, c);
  }

  lemma GiveNoZombie(s: State, s1: State, c: int, q: int, z: int)
    requires Waits(s) && Gave(s, s1, c) && Waiting(s1.procs, q)
    ensures !ZombieChild(s1.procs, q, z)
  {
    hide Reparented;
    GiveWaiting(s, s1, c, q);
    assert !ZombieChild(s.procs, q, z);
    if 0 <= z < |s.procs| {
      GaveAt(s, s1, c, z);
      assert s.procs[z].parent == s.cpus[c].thread && s.procs[z].state.Zombie? ==>
        ZombieChild(s.procs, s.cpus[c].thread, z);
    }
  }

  lemma GiveDone(s: State, s1: State, c: int)
    requires Waits(s) && Tree(s) && Gave(s, s1, c)
    ensures forall q :: 0 <= q < |s1.procs| ==> s1.procs[q].parent != s.cpus[c].thread
    ensures !Waiting(s1.procs, s1.procs[s.cpus[c].thread].parent)
  {
    hide Reparented;
    var me := s.cpus[c].thread;
    forall q | 0 <= q < |s1.procs| ensures s1.procs[q].parent != me {
      GaveAt(s, s1, c, q);
    }
    assert KinOk(s, me);
    GaveAt(s, s1, c, me);
    if Waiting(s1.procs, s1.procs[me].parent) {
      GiveWaiting(s, s1, c, s1.procs[me].parent);
    }
  }

  lemma ExitSetFamily(s: State, s': State, c: int)
    requires Base(s) && Family(s) && ExitSet(s, s', c)
    ensures Family(s')
  {
    hide Base, Forks, Tree, Waits;
    RoleHere(s, c);
    Executes(s, c);
    ForksKept(s, s');
    ExitSetTree(s, s', c);
    ExitSetWaits(s, s', c);
  }

  lemma ExitSetTree(s: State, s': State, c: int)
    requires Tree(s) && Waits(s) && ExitSet(s, s', c) && s.cpus[c].thread != INIT
    requires s.procs[s.cpus[c].thread].state.Running?
    ensures Tree(s')
  {
  }

  lemma ExitSetWaits(s: State, s': State, c: int)
    requires Waits(s) && ExitSet(s, s', c)
    ensures Waits(s')
  {
    var me := s.cpus[c].thread;
    forall q, z | Waiting(s'.procs, q) ensures !ZombieChild(s'.procs, q, z) {
      assert Waiting(s.procs, q);
      assert !ZombieChild(s.procs, q, z);
    }
    forall t | 0 <= t < |s'.procs| && ExitPc(s'.threads[t].pc) ensures !Waiting(s'.procs, s'.procs[t].parent) {
      assert Waiting(s'.procs, s'.procs[t].parent) ==> Waiting(s.procs, s.procs[t].parent);
    }
  }

  // ---------------------------------------------------------------- wait

  lemma WaitReapFamily(s: State, s': State, c: int, z: int)
    requires Base(s) && Family(s) && WaitReap(s, s', c, z)
    ensures Family(s')
  {
    hide Base, Forks, Tree, Waits;
    RoleHere(s, c);
    Executes(s, c);
    SlotHere(s, z);
    ReapedIsOff(s, s', c, z);
    ReapForks(s, s', c, z);
    ReapTree(s, s', c, z);
    SlotWaits(s, s', c, z);
  }

  lemma ReapForks(s: State, s': State, c: int, z: int)
    requires Forks(s) && WaitReap(s, s', c, z) && s.threads[z].np == -1 && z != s.cpus[c].thread && Me(s, c).np == -1
    ensures Forks(s')
  {
  }

  lemma ReapTree(s: State, s': State, c: int, z: int)
    requires Tree(s) && WaitReap(s, s', c, z)
    ensures Tree(s')
  {
  }

  lemma WaitScanFamily(s: State, s': State, c: int)
    requires Base(s) && Family(s) && WaitScan(s, s', c)
    ensures Family(s')
  {
    hide Base;
    var p := s.cpus[c].thread;
    RoleHere(s, c);
    Executes(s, c);
    if !HasKids(s.procs, p) || s.procs[p].killed {
      CalmSame(s, s', c, Me(s, c).(pc := Unlocking));
      CalmFamily(s, s');
    } else {
      WaitSleepFamily(s, s', c);
    }
  }

  lemma WaitSleepFamily(s: State, s': State, c: int)
    requires Base(s) && Family(s) && WaitScan(s, s', c) && s.procs[s.cpus[c].thread].state.Running?
    requires s'.procs[s.cpus[c].thread].state.Sleeping?
    ensures Family(s')
  {
    hide Base, Forks, Tree, Waits, ZombieChild, HasKids;
    ForksKept(s, s');
    TreeKept(s, s');
    WaitSleepWaits(s, s', c);
  }

  lemma WaitSleepWaits(s: State, s': State, c: int)
    requires Base(s) && Waits(s) && WaitScan(s, s', c) && s.procs[s.cpus[c].thread].state.Running?
    requires s'.procs[s.cpus[c].thread].state.Sleeping?
    ensures Waits(s')
  {
    hide Base;
    var me := s.cpus[c].thread;
    forall q, z | Waiting(s'.procs, q) ensures !ZombieChild(s'.procs, q, z) {
      assert q != me ==> Waiting(s.procs, q);
      assert !ZombieChild(s.procs, q, z);
    }
    forall t | 0 <= t < |s'.procs| && ExitPc(s'.threads[t].pc) ensures false {
      OneInside(s, c, t);
    }
  }
}
