/**
Taking an address space apart: freevm.
*/
module VmDrop {
  import opened VmSpace
  import opened VmFree
  import opened VmMap

  /** Directory d and its tables have no owner any more; those tables for entries below i are free. */
  function Drop(o: Owner, d: int, i: int, g: int): Owner
  {
    if g == d then Other
    else if o.Table? && o.dir == d then (if o.i < i then Free else Other)
    else o
  }

  ghost predicate Dropped(own: Owners, own': Owners, d: int, i: int)
  {
    |own'| == |own| && forall g :: 0 <= g < |own| ==> own'[g] == Drop(own[g], d, i, g)
  }

  ghost function DropAll(own: Owners, d: int): (own': Owners)
    ensures Dropped(own, own', d, 0)
  {
    seq(|own|, g requires 0 <= g < |own| => Drop(own[g], d, 0, g))
  }

  /** With no user page left, the directory and its tables can be let go together. */
  lemma LetGo(mem: Mem, own: Owners, d: int)
    requires Consistent(mem, own) && 0 <= d < |mem| && own[d].Dir?
    requires forall g :: 0 <= g < |own| ==> !(own[g].Data? && own[g].dir == d)
    ensures Consistent(mem, DropAll(own, d))
  {
    hide Flat;
    var own' := DropAll(own, d);
    forall g | 0 <= g < |own| ensures own[g].Table? && own[g].dir == d ==> own[g].i >= 0 {
      assert OwnOk(mem, own, g);
    }
    forall e, k | 0 <= e < |mem| && own'[e].Dir? && 0 <= k < 1024 ensures PdeOk(mem, own', e, k) {
      assert PdeOk(mem, own, e, k);
    }
    forall t, j | 0 <= t < |mem| && own'[t].Table? && own'[t].i < 512 && 0 <= j < 1024 ensures PteOk(mem, own', t, j) {
      assert own'[t] == own[t];
      assert PteOk(mem, own, t, j);
    }
    forall g | 0 <= g < |mem| ensures OwnOk(mem, own', g) {
      assert OwnOk(mem, own, g);
    }
  }

  lemma LetGoFree(mem: Mem, own: Owners, d: int, head: int, free: seq<int>, lo: int)
    requires Consistent(mem, own) && FreeOk(mem, own, head, free, lo) && 0 <= d < |mem| && own[d].Dir?
    ensures FreeOk(mem, DropAll(own, d), head, free, lo)
  {
    var own' := DropAll(own, d);
    forall g | 0 <= g < |own| ensures own'[g].Free? <==> own[g].Free? {
      assert OwnOk(mem, own, g);
    }
  }

  /** What the table of entry i is, before the loop of freevm reaches it. */
  lemma DropNext(mem: Mem, own: Owners, own1: Owners, d: int, i: int)
    requires Consistent(mem, own) && 0 <= d < |mem| && own[d].Dir? && 0 <= i < 1024 && Dropped(own, own1, d, i)
    ensures Present(mem[d][i]) ==>
      var t := Frame(mem[d][i]); 0 <= t < |mem| && t != d && own1[t].Other? && Dropped(own, own1[t := Free], d, i + 1)
    ensures !Present(mem[d][i]) ==> Dropped(own, own1, d, i + 1)
  {
    assert PdeOk(mem, own, d, i);
    forall g | 0 <= g < |own|
      ensures own[g].Table? && own[g].dir == d && own[g].i == i ==> Present(mem[d][i]) && g == Frame(mem[d][i])
    {
      assert OwnOk(mem, own, g);
    }
  }

  /** Frames of an address space: its directory, its tables, its pages. */
  predicate Of(o: Owner, d: int, g: int)
  {
    g == d || ((o.Table? || o.Data?) && o.dir == d)
  }

  /** Every frame of d is free, everything else is as before. */
  ghost predicate Gone(mem: Mem, own: Owners, mem': Mem, own': Owners, d: int)
  {
    && |own'| == |own| == |mem| == |mem'| && Stays(mem, own, mem', own')
    && (forall g :: 0 <= g < |own| ==> own'[g] == if Of(own[g], d, g) then Free else own[g])
    && (forall e, wp :: 0 <= e < |mem| && own[e].Dir? && e != d && 0 <= wp < PAGES ==>
          Flat(mem', e, wp) == Flat(mem, e, wp))
  }

  lemma AllGone(mem0: Mem, own0: Owners, mem1: Mem, own1: Owners, mem: Mem, own: Owners, d: int)
    requires Consistent(mem0, own0) && 0 <= d < |own0| && own0[d].Dir?
    requires Freed(mem0, own0, mem1, own1, d, 0, USERPAGES) && Consistent(mem1, own1) && Dropped(own1, own, d, 1024)
    requires |mem| == |own|
    requires forall e, wp :: 0 <= e < |mem| && own[e].Dir? && 0 <= wp < PAGES ==> Flat(mem, e, wp) == Flat(mem1, e, wp)
    requires Kept(mem1, own1, mem)
    ensures Gone(mem0, own0, mem, own[d := Free], d)
  {
    hide Flat, HasTable;
    forall g | 0 <= g < |own0| ensures own[d := Free][g] == if Of(own0[g], d, g) then Free else own0[g] {
      assert OwnOk(mem0, own0, g) && OwnOk(mem1, own1, g);
    }
  }

  lemma NoData(mem0: Mem, own0: Owners, mem1: Mem, own1: Owners, d: int)
    requires Consistent(mem0, own0) && Freed(mem0, own0, mem1, own1, d, 0, USERPAGES)
    ensures forall g :: 0 <= g < |own1| ==> !(own1[g].Data? && own1[g].dir == d)
  {
    hide Flat, HasTable;
    forall g | 0 <= g < |own1| ensures !(own1[g].Data? && own1[g].dir == d) {
      assert OwnOk(mem0, own0, g);
    }
  }

  lemma DirPage(mem: Mem, own: Owners, d: int)
    requires Consistent(mem, own) && 0 <= d < |mem|
    ensures |mem[d]| == ENTRIES
  {
  }

  lemma TableAbove(mem: Mem, own: Owners, head: int, free: seq<int>, lo: int, d: int, i: int)
    requires Consistent(mem, own) && FreeOk(mem, own, head, free, lo) && 0 <= d < |mem| && own[d].Dir?
    requires 0 <= i < |mem[d]| && Present(mem[d][i])
    ensures lo <= Frame(mem[d][i]) < |own| && 0 <= Frame(mem[d][i]) && own[Frame(mem[d][i])].Table?
  {
    PdeAt(mem, own, d, i);
  }

  lemma DroppedDir(own: Owners, own': Owners, d: int)
    requires 0 <= d < |own| && Dropped(own, own', d, 1024)
    ensures |own'| == |own| && own'[d].Other?
  {
  }
}
