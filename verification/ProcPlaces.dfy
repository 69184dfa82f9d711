/**
Threads, CPUs and locks: which thread is where, and that each lock is held by the CPU whose
thread is inside its critical section, although ptable.lock changes hands across swtch.
*/
module ProcPlaces {
  import opened ProcMachine

  ghost predicate PlaceOk(s: State, c: int)
    requires 0 <= c < |s.cpus|
  {
    var t := s.cpus[c].thread;
    0 <= t < |s.threads| && s.threads[t].at == c && (t < |s.procs| || t == |s.procs| + c)
  }

  ghost predicate AtOk(s: State, t: int)
    requires 0 <= t < |s.threads|
  {
    var th := s.threads[t];
    && (th.at == -1 <==> IsOff(th.pc))
    && (th.at != -1 ==> 0 <= th.at < |s.cpus| && s.cpus[th.at].thread == t)
  }

  ghost predicate Places(s: State)
  {
    && |s.threads| == |s.procs| + |s.cpus| && |s.procs| >= 1
    && (forall c :: 0 <= c < |s.cpus| ==> PlaceOk(s, c))
    && (forall t :: 0 <= t < |s.threads| ==> AtOk(s, t))
  }

  function Held(th: Thread): int
  {
    (if th.l != -1 then 1 else 0) + (if HasLock(th.pc) then 1 else 0)
  }

  ghost predicate HolderOk(s: State, t: int)
    requires 0 <= t < |s.threads|
  {
    var th := s.threads[t];
    && (HasLock(th.pc) ==> s.lock == th.at)
    && (th.l != -1 ==> th.at != -1 && th.l in s.lks && s.lks[th.l] == th.at)
  }

  ghost predicate LkOk(s: State, l: int)
    requires l in s.lks
  {
    l >= 0 && (s.lks[l] != -1 ==> Here(s, s.lks[l]) && Me(s, s.lks[l]).l == l)
  }

  /** pushcli depth, and no interrupts inside a critical section. */
  ghost predicate CliOk(s: State, c: int)
  {
    Here(s, c) && s.cpus[c].ncli == Held(Me(s, c)) && (s.cpus[c].ncli > 0 ==> !s.cpus[c].ief)
  }

  ghost predicate Locks(s: State)
  {
    && (forall t :: 0 <= t < |s.threads| ==> HolderOk(s, t))
    && (s.lock != -1 ==> Here(s, s.lock) && HasLock(Me(s, s.lock).pc))
    && (forall l :: l in s.lks ==> LkOk(s, l))
    && (forall c :: 0 <= c < |s.cpus| ==> CliOk(s, c))
  }

  /** One thread changed, in place; one CPU record changed; locks perhaps. */
  ghost predicate Touched(s: State, s': State, c: int, th: Thread, u: Cpu)
  {
    && Here(s, c) && |s'.procs| == |s.procs|
    && s'.threads == s.threads[s.cpus[c].thread := th] && s'.cpus == s.cpus[c := u]
    && th.at == c && u.thread == s.cpus[c].thread && !IsOff(th.pc)
  }

  lemma TouchedPlaces(s: State, s': State, c: int, th: Thread, u: Cpu)
    requires Places(s) && Touched(s, s', c, th, u)
    ensures Places(s')
  {
    assert PlaceOk(s, c) && AtOk(s, s.cpus[c].thread);
    forall d | 0 <= d < |s'.cpus| ensures PlaceOk(s', d) {
      assert PlaceOk(s, d);
    }
    forall t | 0 <= t < |s'.threads| ensures AtOk(s', t) {
      assert AtOk(s, t);
    }
  }

  /** No lock changes hands. */
  lemma StayLocks(s: State, s': State, c: int, th: Thread, u: Cpu)
    requires Places(s) && Locks(s) && Touched(s, s', c, th, u)
    requires s'.lock == s.lock && s'.lks == s.lks
    requires th.l == Me(s, c).l && HasLock(th.pc) == HasLock(Me(s, c).pc)
    requires u.ncli == s.cpus[c].ncli && (u.ief ==> u.ncli == 0)
    ensures Locks(s')
  {
    assert PlaceOk(s, c) && CliOk(s, c) && HolderOk(s, s.cpus[c].thread);
    forall t | 0 <= t < |s'.threads| ensures HolderOk(s', t) {
      assert HolderOk(s, t);
    }
    forall d | 0 <= d < |s'.cpus| ensures CliOk(s', d) {
      assert CliOk(s, d) && PlaceOk(s, d);
    }
    forall l | l in s'.lks ensures LkOk(s', l) {
      assert LkOk(s, l);
    }
  }

  lemma AcquireLocks(s: State, s': State, c: int, th: Thread, u: Cpu)
    requires Places(s) && Locks(s) && Touched(s, s', c, th, u)
    requires s.lock == -1 && s'.lock == c && s'.lks == s.lks
    requires th.l == Me(s, c).l && HasLock(th.pc)
    requires u.ncli == s.cpus[c].ncli + 1 && !u.ief
    ensures Locks(s')
  {
    assert PlaceOk(s, c) && CliOk(s, c) && HolderOk(s, s.cpus[c].thread);
    forall t | 0 <= t < |s'.threads| ensures HolderOk(s', t) {
      assert HolderOk(s, t) && AtOk(s, t);
    }
    forall d | 0 <= d < |s'.cpus| ensures CliOk(s', d) {
      assert CliOk(s, d) && PlaceOk(s, d);
    }
    forall l | l in s'.lks ensures LkOk(s', l) {
      assert LkOk(s, l);
    }
  }

  lemma ReleaseLocks(s: State, s': State, c: int, th: Thread)
    requires Places(s) && Locks(s) && Here(s, c) && Touched(s, s', c, th, Pop(s.cpus[c]))
    requires HasLock(Me(s, c).pc) && s'.lock == -1 && s'.lks == s.lks
    requires th.l == Me(s, c).l && !HasLock(th.pc)
    ensures Locks(s') && s.lock == c
  {
    assert PlaceOk(s, c) && CliOk(s, c) && HolderOk(s, s.cpus[c].thread);
    forall t | 0 <= t < |s'.threads| ensures HolderOk(s', t) {
      assert HolderOk(s, t) && AtOk(s, t);
    }
    forall d | 0 <= d < |s'.cpus| ensures CliOk(s', d) {
      assert CliOk(s, d) && PlaceOk(s, d);
    }
    forall l | l in s'.lks ensures LkOk(s', l) {
      assert LkOk(s, l);
    }
  }

  /** Another lock is taken. */
  lemma TakeLocks(s: State, s': State, c: int, th: Thread, l: int)
    requires Places(s) && Locks(s) && Here(s, c) && Touched(s, s', c, th, Push(s.cpus[c]))
    requires l in s.lks && s.lks[l] == -1 && s'.lks == s.lks[l := c] && s'.lock == s.lock
    requires Me(s, c).l == -1 && th.l == l && HasLock(th.pc) == HasLock(Me(s, c).pc)
    ensures Locks(s')
  {
    assert PlaceOk(s, c) && CliOk(s, c) && HolderOk(s, s.cpus[c].thread) && LkOk(s, l);
    forall t | 0 <= t < |s'.threads| ensures HolderOk(s', t) {
      assert HolderOk(s, t) && AtOk(s, t);
    }
    forall d | 0 <= d < |s'.cpus| ensures CliOk(s', d) {
      assert CliOk(s, d) && PlaceOk(s, d);
    }
    forall k | k in s'.lks ensures LkOk(s', k) {
      assert k != l ==> LkOk(s, k);
    }
  }

  lemma GiveLocks(s: State, s': State, c: int, th: Thread, l: int)
    requires Places(s) && Locks(s) && Here(s, c) && Touched(s, s', c, th, Pop(s.cpus[c]))
    requires Me(s, c).l == l != -1 && s'.lks == s.lks[l := -1] && s'.lock == s.lock
    requires th.l == -1 && HasLock(th.pc) == HasLock(Me(s, c).pc)
    ensures Locks(s') && l in s.lks && s.lks[l] == c
  {
    assert PlaceOk(s, c) && CliOk(s, c) && HolderOk(s, s.cpus[c].thread) && LkOk(s, l);
    forall t | 0 <= t < |s'.threads| ensures HolderOk(s', t) {
      assert HolderOk(s, t) && AtOk(s, t);
    }
    forall d | 0 <= d < |s'.cpus| ensures CliOk(s', d) {
      assert CliOk(s, d) && PlaceOk(s, d);
    }
    forall k | k in s'.lks ensures LkOk(s', k) {
      assert LkOk(s, k);
    }
  }

  /** CPU c passes from thread t, inside ptable.lock, to thread r, which goes on inside it. */
  ghost predicate Swapped(s: State, s': State, c: int, r: int, off: Thread, on: Thread, u: Cpu)
  {
    && Here(s, c) && 0 <= r < |s.threads| && r != s.cpus[c].thread && (r < |s.procs| || r == |s.procs| + c)
    && |s'.procs| == |s.procs| && s'.lock == s.lock && s'.lks == s.lks
    && s'.threads == s.threads[s.cpus[c].thread := off][r := on] && s'.cpus == s.cpus[c := u]
    && s.threads[r].at == -1 && off.at == -1 && on.at == c && off.l == -1 && on.l == -1
    && IsOff(off.pc) && HasLock(on.pc) && HasLock(Me(s, c).pc) && Me(s, c).l == -1
    && u.thread == r && u.ncli == s.cpus[c].ncli && u.ief == s.cpus[c].ief
  }

  lemma SwappedPlaces(s: State, s': State, c: int, r: int, off: Thread, on: Thread, u: Cpu)
    requires Places(s) && Swapped(s, s', c, r, off, on, u)
    ensures Places(s')
  {
    assert PlaceOk(s, c);
    forall d | 0 <= d < |s'.cpus| ensures PlaceOk(s', d) {
      assert PlaceOk(s, d);
    }
    forall t | 0 <= t < |s'.threads| ensures AtOk(s', t) {
      assert AtOk(s, t);
    }
  }

  lemma SwappedLocks(s: State, s': State, c: int, r: int, off: Thread, on: Thread, u: Cpu)
    requires Places(s) && Locks(s) && Swapped(s, s', c, r, off, on, u)
    ensures Locks(s') && s.lock == c
  {
    assert PlaceOk(s, c) && CliOk(s, c) && HolderOk(s, s.cpus[c].thread);
    forall t | 0 <= t < |s'.threads| ensures HolderOk(s', t) {
      assert HolderOk(s, t) && AtOk(s, t);
    }
    forall d | 0 <= d < |s'.cpus| ensures CliOk(s', d) {
      assert CliOk(s, d) && PlaceOk(s, d);
    }
    forall k | k in s'.lks ensures LkOk(s', k) {
      assert LkOk(s, k);
      assert s.lks[k] != -1 ==> PlaceOk(s, s.lks[k]);
    }
  }

  /** A thread on no CPU is replaced by another such. */
  ghost predicate Recast(s: State, s': State, e: int, th: Thread)
  {
    && 0 <= e < |s.threads| && s.threads[e].at == -1 && th.at == -1 && th.l == -1 && IsOff(th.pc)
    && |s'.procs| == |s.procs| && s'.threads == s.threads[e := th] && s'.cpus == s.cpus
    && s'.lock == s.lock && s'.lks == s.lks
  }

  lemma RecastPlaces(s: State, s': State, e: int, th: Thread)
    requires Places(s) && Locks(s) && Recast(s, s', e, th)
    ensures Places(s') && Locks(s')
  {
    forall d | 0 <= d < |s'.cpus| ensures PlaceOk(s', d) && CliOk(s', d) {
      assert PlaceOk(s, d) && CliOk(s, d);
    }
    forall t | 0 <= t < |s'.threads| ensures AtOk(s', t) && HolderOk(s', t) {
      assert AtOk(s, t) && HolderOk(s, t);
    }
    forall l | l in s'.lks ensures LkOk(s', l) {
      assert LkOk(s, l);
      assert s.lks[l] != -1 ==> PlaceOk(s, s.lks[l]);
    }
    assert s.lock != -1 ==> PlaceOk(s, s.lock);
  }
}
