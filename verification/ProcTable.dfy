/**
The table scans of proc.c as loops over the process table, each proved to be the function or
the choice that the machine's step takes.
*/
module ProcTable {
  import opened ProcMachine

  /** The first k slots given to init by the exiting process me. */
  function Given(procs: seq<Proc>, me: int, k: int): (r: seq<Proc>)
    ensures |r| == |procs|
    ensures forall i :: 0 <= i < |procs| ==> r[i] == if i < k then Adopt(procs[i], me) else procs[i]
  {
    seq(|procs|, i requires 0 <= i < |procs| => if i < k then Adopt(procs[i], me) else procs[i])
  }

  /** One of the first k slots is a zombie child of me. */
  ghost predicate ZombieBelow(procs: seq<Proc>, me: int, k: int)
  {
    exists z :: 0 <= z < k && ZombieChild(procs, me, z)
  }

  lemma WokenTwice(procs: seq<Proc>, chan: Chan)
    ensures Woken(Woken(procs, chan), chan) == Woken(procs, chan)
  {
  }

  lemma GivenStep(procs: seq<Proc>, me: int, k: int)
    requires 0 <= k < |procs|
    ensures var g := Given(procs, me, k); Given(procs, me, k + 1) == g[k := Adopt(g[k], me)]
    ensures var w := Woken(Given(procs, me, k), Self(INIT));
      Woken(Given(procs, me, k + 1), Self(INIT)) == w[k := Adopt(w[k], me)]
  {
  }

  lemma GivenAll(procs: seq<Proc>, me: int)
    ensures Reparented(procs, me) == if ZombieBelow(procs, me, |procs|)
      then Woken(Given(procs, me, |procs|), Self(INIT)) else Given(procs, me, |procs|)
  {
    var given := seq(|procs|, i requires 0 <= i < |procs| => Adopt(procs[i], me));
    assert given == Given(procs, me, |procs|);
    if i :| 0 <= i < |procs| && procs[i].parent == me && procs[i].state.Zombie? {
      assert ZombieChild(procs, me, i);
    }
  }

  lemma ZombiesStay(procs: seq<Proc>, procs': seq<Proc>, me: int)
    requires |procs| == |procs'|
    requires forall i :: 0 <= i < |procs| ==> procs'[i].parent == procs[i].parent
    requires forall i :: 0 <= i < |procs| ==> (procs'[i].state.Zombie? <==> procs[i].state.Zombie?)
    ensures ZombieBelow(procs', me, |procs|) <==> ZombieBelow(procs, me, |procs|)
  {
    forall z | ZombieChild(procs, me, z) ensures ZombieChild(procs', me, z) {
    }
    forall z | ZombieChild(procs', me, z) ensures ZombieChild(procs, me, z) {
    }
  }

  ghost predicate FirstPid(procs: seq<Proc>, pid: int, p: int)
  {
    0 <= p < |procs| && procs[p].pid == pid && forall q :: 0 <= q < p ==> procs[q].pid != pid
  }

  ghost predicate FirstUnused(procs: seq<Proc>, e: int)
  {
    0 <= e < |procs| && procs[e].state.Unused? && forall q :: 0 <= q < e ==> !procs[q].state.Unused?
  }

  datatype WaitResult = Reaped(pid: int, z: int) | NoChildren | MustSleep

  class Table {
    const proc: array<Proc>
    var nextpid: int

    constructor (n: nat)
      ensures fresh(proc) && proc.Length == n && nextpid == 1
      ensures forall i :: 0 <= i < n ==> proc[i] == Proc(Unused, 0, -1, NoChan, false, false)
    {
      proc := new Proc[n](_ => Proc(Unused, 0, -1, NoChan, false, false));
      nextpid := 1;
    }

    method Wakeup1(chan: Chan)
      modifies proc
      ensures proc[..] == Woken(old(proc[..]), chan)
      ensures forall q :: 0 <= q < proc.Length ==>
        var p := old(proc[..])[q];
        proc[q] == if p.state.Sleeping? && p.chan == chan
                   then Proc(Runnable, p.pid, p.parent, p.chan, p.kstack, p.killed) else p
    {
      var p := 0;
      while p < proc.Length
        invariant 0 <= p <= proc.Length
        invariant forall i :: 0 <= i < p ==> proc[i] == Wake(old(proc[..])[i], chan)
        invariant forall i :: p <= i < proc.Length ==> proc[i] == old(proc[..])[i]
      {
        if proc[p].state.Sleeping? && proc[p].chan == chan {
          proc[p] := proc[p].(state := Runnable);
        }
        p := p + 1;
      }
    }

    /** exit: the children of me pass to init, which is woken for a zombie among them. */
    method GiveChildren(me: int)
      modifies proc
      ensures proc[..] == Reparented(old(proc[..]), me)
      ensures forall q :: 0 <= q < proc.Length ==>
        var p := old(proc[..])[q];
        proc[q] == Proc(if ZombieBelow(old(proc[..]), me, proc.Length) && p.state.Sleeping? && p.chan == Self(0)
                        then Runnable else p.state,
                        p.pid, if p.parent == me then 0 else p.parent, p.chan, p.kstack, p.killed)
    {
      ghost var was := proc[..];
      ghost var woke := false;
      var p := 0;
      assert proc[..] == Given(was, me, 0);
      while p < proc.Length
        invariant 0 <= p <= proc.Length && |was| == proc.Length
        invariant proc[..] == if woke then Woken(Given(was, me, p), Self(INIT)) else Given(was, me, p)
        invariant woke <==> ZombieBelow(was, me, p)
      {
        GivenStep(was, me, p);
        ghost var zombie := ZombieChild(was, me, p);
        assert ZombieBelow(was, me, p + 1) <==> woke || zombie by {
          if z :| 0 <= z < p + 1 && ZombieChild(was, me, z) { assert z == p || z < p; }
        }
        if proc[p].parent == me {
          ghost var before := proc[..];
          proc[p] := proc[p].(parent := INIT);
          assert proc[..] == before[p := Adopt(before[p], me)];
          if proc[p].state.Zombie? {
            WokenTwice(Given(was, me, p + 1), Self(INIT));
            Wakeup1(Self(INIT));
            woke := true;
          }
        } else {
          assert proc[..] == proc[..][p := Adopt(proc[p], me)];
        }
        p := p + 1;
      }
      GivenAll(was, me);
    }

    /** exit, from its lock on: the parent is woken and the children given away before me
        becomes a zombie, which is when the table as a whole may be looked at again. */
    method Exit(me: int)
      requires 0 <= me < proc.Length && me != INIT
      modifies proc
      ensures var was := old(proc[..]);
        var gave := Reparented(Woken(was, Self(was[me].parent)), me);
        proc[..] == gave[me := gave[me].(state := Zombie)]
      ensures forall q :: 0 <= q < proc.Length ==>
        var was, p := old(proc[..]), old(proc[..])[q];
        && proc[q].parent == (if p.parent == me then 0 else p.parent)
        && proc[q].pid == p.pid && proc[q].chan == p.chan && proc[q].kstack == p.kstack && proc[q].killed == p.killed
        && proc[q].state == (if q == me then Zombie
                             else if p.state.Sleeping? && p.chan == Self(was[me].parent) then Runnable
                             else if p.state.Sleeping? && p.chan == Self(0) && ZombieBelow(was, me, proc.Length)
                             then Runnable else p.state)
    {
      ghost var was := proc[..];
      Wakeup1(Self(proc[me].parent));
      ZombiesStay(was, proc[..], me);
      GiveChildren(me);
      ghost var gave := proc[..];
      proc[me] := proc[me].(state := Zombie);
      assert proc[..] == gave[me := gave[me].(state := Zombie)];
    }

    /** One pass of wait over the table. */
    method WaitPass(me: int) returns (r: WaitResult)
      requires 0 <= me < proc.Length
      modifies proc
      ensures var was := old(proc[..]);
        match r
        case Reaped(pid, z) =>
          && ZombieChild(was, me, z) && pid == was[z].pid && !ZombieBelow(was, me, z)
          && proc[..] == was[z := was[z].(state := Unused, pid := 0, parent := -1, kstack := false, killed := false)]
        case NoChildren =>
          && (forall z :: !ZombieChild(was, me, z))
          && (!HasKids(was, me) || was[me].killed) && proc[..] == was
        case MustSleep =>
          && (forall z :: !ZombieChild(was, me, z))
          && HasKids(was, me) && !was[me].killed && proc[..] == was
    {
      ghost var was := proc[..];
      var havekids := false;
      var p := 0;
      while p < proc.Length
        invariant 0 <= p <= proc.Length && proc[..] == was
        invariant !ZombieBelow(was, me, p)
        invariant havekids <==> exists q :: 0 <= q < p && was[q].parent == me
      {
        if proc[p].parent == me {
          havekids := true;
          if proc[p].state.Zombie? {
            r := Reaped(proc[p].pid, p);
            assert ZombieChild(was, me, p);
            proc[p] := proc[p].(state := Unused, pid := 0, parent := -1, kstack := false, killed := false);
            return;
          }
        }
        p := p + 1;
      }
      if !havekids || proc[me].killed {
        return NoChildren;
      }
      r := MustSleep;
    }

    /** The first slot with the given pid is marked, and woken if asleep. */
    method Kill(pid: int) returns (found: bool)
      modifies proc
      ensures found <==> exists q :: 0 <= q < proc.Length && old(proc[..])[q].pid == pid
      ensures !found ==> proc[..] == old(proc[..])
      ensures found ==>
        exists p :: FirstPid(old(proc[..]), pid, p) && proc[..] == old(proc[..])[p := Struck(old(proc[..])[p])]
      ensures forall q :: 0 <= q < proc.Length ==>
        var p := old(proc[..])[q];
        proc[q] == if FirstPid(old(proc[..]), pid, q)
                   then Proc(if p.state.Sleeping? then Runnable else p.state, pid, p.parent, p.chan, p.kstack, true)
                   else p
    {
      ghost var was := proc[..];
      var p := 0;
      while p < proc.Length
        invariant 0 <= p <= proc.Length && proc[..] == was
        invariant forall q :: 0 <= q < p ==> was[q].pid != pid
      {
        if proc[p].pid == pid {
          proc[p] := proc[p].(killed := true);
          if proc[p].state.Sleeping? {
            proc[p] := proc[p].(state := Runnable);
          }
          assert FirstPid(was, pid, p) && proc[..] == was[p := Struck(was[p])];
          return true;
        }
        p := p + 1;
      }
      found := false;
    }

    /** allocproc's search: the first unused slot becomes an embryo with a new pid; -1 if none. */
    method AllocSlot() returns (e: int)
      modifies this, proc
      ensures var was := old(proc[..]);
        && (e == -1 ==>
              && (forall q :: 0 <= q < |was| ==> !was[q].state.Unused?)
              && proc[..] == was && nextpid == old(nextpid))
        && (e != -1 ==> FirstUnused(was, e) && nextpid == old(nextpid) + 1
                        && proc[..] == was[e := was[e].(state := Embryo, pid := old(nextpid))])
    {
      ghost var was := proc[..];
      var p := 0;
      while p < proc.Length
        invariant 0 <= p <= proc.Length && proc[..] == was && nextpid == old(nextpid)
        invariant forall q :: 0 <= q < p ==> !was[q].state.Unused?
      {
        if proc[p].state.Unused? {
          proc[p] := proc[p].(state := Embryo, pid := nextpid);
          nextpid := nextpid + 1;
          assert proc[..] == was[p := was[p].(state := Embryo, pid := old(nextpid))];
          return p;
        }
        p := p + 1;
      }
      e := -1;
    }
  }
}
