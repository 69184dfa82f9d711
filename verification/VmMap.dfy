/**
What mappages and deallocuvm do to the flat maps, as relations between memories.
*/
module VmMap {
  import opened VmSpace
  import opened VmFree

  lemma EntryIs(mem: Mem, d: int, a: int)
    requires HasTable(mem, d, a / 1024) && a >= 0 && 0 <= Frame(mem[d][a / 1024]) < |mem|
    requires |mem[Frame(mem[d][a / 1024])]| == ENTRIES
    ensures var w := mem[Frame(mem[d][a / 1024])][a % 1024]; Flat(mem, d, a) == if Present(w) then w else 0
  {
  }

  lemma FrameAbove(mem: Mem, own: Owners, head: int, free: seq<int>, lo: int, f: int)
    requires FreeOk(mem, own, head, free, lo) && 0 <= f < |own| && !own[f].Other?
    ensures lo <= f
  {
  }

  /** The free list does not notice a write to a table. */
  lemma EntryFree(mem: Mem, own: Owners, head: int, free: seq<int>, lo: int, t: int, page: seq<int>)
    requires FreeOk(mem, own, head, free, lo) && 0 <= t < |mem| && |own| == |mem| && !own[t].Free?
    ensures FreeOk(mem[t := page], own, head, free, lo)
  {
    ChainFrame(mem, mem[t := page], head, free);
  }

  lemma FreedNothing(mem0: Mem, own0: Owners, mem: Mem, own: Owners, d: int, a0: int, a: int)
    requires Freed(mem0, own0, mem, own, d, a0, a) && 0 <= a0 <= a < USERPAGES && 0 <= d < |own0| && own0[d].Dir?
    requires Flat(mem, d, a) == 0 && Consistent(mem, own)
    ensures Freed(mem0, own0, mem, own, d, a0, a + 1)
  {
    hide Flat, Missed, HasTable;
    forall g | 0 <= g < |own0|
      ensures own[g] == if GoesWith(own0[g], d) && Cleared(mem0, d, a0, a + 1, own0[g].vp) then Free else own0[g]
    {
      assert OwnOk(mem, own, g);
    }
  }

  /** deallocuvm unmaps all it is asked to exactly when no mapped page is missed by its jumps. */
  lemma UnmapsAll(mem: Mem, own: Owners, mem': Mem, own': Owners, d: int, a0: int, top: int)
    requires Freed(mem, own, mem', own', d, a0, top) && 0 <= d < |own| && own[d].Dir? && 0 <= a0 && top <= USERPAGES
    ensures (forall vp :: a0 <= vp < top ==> !Present(Flat(mem', d, vp)))
       <==> (forall vp :: a0 <= vp < top && Missed(mem, d, a0, vp) ==> !Present(Flat(mem, d, vp)))
  {
  }

  lemma TablesSame(mem0: Mem, own0: Owners, mem: Mem, own: Owners, d: int, a0: int, a: int, top: int)
    requires Freed(mem0, own0, mem, own, d, a0, top) && 0 <= d < |own0| && own0[d].Dir? && 0 <= a < PAGES
    ensures HasTable(mem, d, a / 1024) <==> HasTable(mem0, d, a / 1024)
  {
  }

  const KERNBASE := 0x8000_0000

  function Lesser(a: int, b: int): int
  {
    if a <= b then a else b
  }

  /** PGROUNDUP(sz) / PGSIZE. */
  function Pages(sz: int): int
  {
    (sz + 4095) / 4096
  }

  lemma PagesAbove(a: int, sz: int)
    requires 0 <= a && a * 4096 < sz <= KERNBASE
    ensures 0 <= a < Pages(sz) <= USERPAGES
  {
  }

  lemma PagesBelow(a: int, sz: int)
    requires a * 4096 >= sz
    ensures a >= Pages(sz)
  {
  }

  lemma PagesTop(sz: int)
    requires sz <= KERNBASE
    ensures Pages(sz) <= USERPAGES
  {
  }

  lemma PagesOrder(a: int, b: int)
    requires 0 <= a <= b
    ensures 0 <= Pages(a) <= Pages(b)
  {
  }

  lemma NotMissed(mem: Mem, d: int, a0: int, a: int)
    requires Going(mem, d, a0, a)
    ensures 0 <= a0 <= a && !Missed(mem, d, a0, a)
  {
  }

  lemma GoingAt(mem: Mem, d: int, a0: int)
    requires 0 <= a0
    ensures Going(mem, d, a0, a0)
  {
  }

  /** Frames for the user pages from first up to end, starting at frame pf, are nobody's. */
  ghost predicate Spare(own: Owners, lo: int, pf: int, first: int, end: int)
  {
    forall f :: pf <= f < pf + (end - first) && first + (f - pf) < USERPAGES ==> lo <= f && SpareAt(own, f)
  }

  ghost predicate SpareAt(own: Owners, f: int)
  {
    0 <= f < |own| && own[f].Other?
  }

  /** mappages needs a new table at vp, when it starts at first. */
  ghost predicate Needs(mem: Mem, d: int, first: int, vp: int)
  {
    !HasTable(mem, d, vp / 1024) && (vp == first || vp % 1024 == 0)
  }

  ghost function NewTables(mem: Mem, d: int, first: int, end: int): int
    decreases end - first
  {
    if end <= first then 0 else NewTables(mem, d, first, end - 1) + if Needs(mem, d, first, end - 1) then 1 else 0
  }

  lemma {:induction false} MoreTables(mem: Mem, d: int, first: int, a: int, end: int)
    requires first <= a < end && Needs(mem, d, first, a)
    ensures NewTables(mem, d, first, end) > NewTables(mem, d, first, a) >= 0
    decreases end - a
  {
    if end == a + 1 {
      TablesPositive(mem, d, first, a);
    } else {
      MoreTables(mem, d, first, a, end - 1);
    }
  }

  lemma {:induction false} TablesPositive(mem: Mem, d: int, first: int, end: int)
    ensures NewTables(mem, d, first, end) >= 0
    decreases end - first
  {
    if end > first { TablesPositive(mem, d, first, end - 1); }
  }

  /** Where only the first page can have its table already, there is a new one for every other stretch. */
  lemma {:induction false} TablesCount(mem: Mem, d: int, first: int, end: int)
    requires 0 <= first < end
    requires forall k :: first / 1024 < k <= (end - 1) / 1024 ==> !HasTable(mem, d, k)
    ensures NewTables(mem, d, first, end)
         == (end - 1) / 1024 - first / 1024 + if HasTable(mem, d, first / 1024) then 0 else 1
    decreases end
  {
    if end == first + 1 {
      assert NewTables(mem, d, first, first) == 0;
    } else {
      TablesCount(mem, d, first, end - 1);
      assert (end - 1) % 1024 == 0 <==> (end - 2) / 1024 < (end - 1) / 1024;
      assert (end - 1) / 1024 <= (end - 2) / 1024 + 1;
    }
  }

  /** Pages first up to m of d are mapped to frames from pf on; nothing else is different. */
  ghost predicate Range(mem: Mem, own: Owners, mem': Mem, own': Owners, d: int, first: int, m: int, pf: int, perm: int)
  {
    && |own'| == |own| == |mem| == |mem'|
    && (forall e, wp :: 0 <= e < |mem| && own[e].Dir? && 0 <= wp < PAGES ==>
          Flat(mem', e, wp) == if e == d && first <= wp < m then Pte(pf + (wp - first), perm) else Flat(mem, e, wp))
    && (forall e, k :: 0 <= e < |mem| && own[e].Dir? && 0 <= k < 1024 ==>
          (HasTable(mem', e, k) <==>
           HasTable(mem, e, k) || (e == d && m > first && first / 1024 <= k <= (m - 1) / 1024)))
    && (forall g :: 0 <= g < |own| ==> OwnRange(own[g], own'[g], d, first, m, pf, g))
  }

  /** A free frame may become a table; a frame of the range serves its page. */
  predicate OwnRange(o: Owner, o': Owner, d: int, first: int, m: int, pf: int, g: int)
  {
    if o.Free? then o'.Free? || (o'.Table? && o'.dir == d)
    else o' == if pf <= g < pf + (m - first) && first + (g - pf) < USERPAGES then Data(d, first + (g - pf)) else o
  }

  lemma RangeKept(mem0: Mem, own0: Owners, mem1: Mem, own1: Owners, mem: Mem, d: int, first: int, a: int, pf: int,
                  perm: int)
    requires Range(mem0, own0, mem1, own1, d, first, a, pf, perm) && Kept(mem0, own0, mem1) && Kept(mem1, own1, mem)
    ensures Kept(mem0, own0, mem)
  {
  }

  lemma RangeEmpty(mem: Mem, own: Owners, d: int, first: int, pf: int, perm: int)
    requires |own| == |mem|
    ensures Range(mem, own, mem, own, d, first, first, pf, perm)
  {
  }

  /** What MapPage asks for, at the next page of the range. */
  lemma RangeNext(mem0: Mem, own0: Owners, mem: Mem, own: Owners, d: int, first: int, a: int, pf: int, perm: int,
                  lo: int, last: int)
    requires Range(mem0, own0, mem, own, d, first, a, pf, perm) && 0 <= first <= a <= last && a < PAGES
    requires 0 <= d < |own0| && own0[d].Dir? && !Present(Flat(mem0, d, a)) && Spare(own0, lo, pf, first, last + 1)
    ensures !Present(Flat(mem, d, a))
    ensures a < USERPAGES ==>
      lo <= pf + (a - first) < |mem| && 0 <= pf + (a - first) < |own| && own[pf + (a - first)].Other?
    ensures HasTable(mem, d, a / 1024) <==> !Needs(mem0, d, first, a)
  {
    hide Flat, Present, Pte;
    Rounds(first, a);
    if a < USERPAGES {
      var f := pf + (a - first);
      assert SpareAt(own0, f);
      assert OwnRange(own0[f], own[f], d, first, a, pf, f);
    }
  }

  lemma Rounds(first: int, a: int)
    requires 0 <= first <= a < PAGES
    ensures 0 <= a / 1024 < 1024 && first / 1024 <= a / 1024
    ensures a > first ==> (a / 1024 <= (a - 1) / 1024 <==> a % 1024 != 0) && first / 1024 <= (a - 1) / 1024 <= a / 1024
    ensures a > first && a % 1024 == 0 ==> (a - 1) / 1024 == a / 1024 - 1
  {
  }

  lemma RangeStep(mem0: Mem, own0: Owners, mem1: Mem, own1: Owners, mem: Mem, own: Owners, d: int, first: int, a: int,
                  pf: int, perm: int, nt: int, lo: int, end: int)
    requires Spare(own0, lo, pf, first, end) && a < end
    requires Range(mem0, own0, mem1, own1, d, first, a, pf, perm) && |mem| == |mem1| && 0 <= first <= a < PAGES
    requires Mapped(mem1, own1, mem, d, a, Pte(pf + (a - first), perm)) && AddsTable(mem1, own1, mem, d, a / 1024)
    requires Owned(own1, own, d, a, pf + (a - first), nt)
    requires (a < USERPAGES ==> 0 <= pf + (a - first) < |own1| && own1[pf + (a - first)].Other?)
    ensures Range(mem0, own0, mem, own, d, first, a + 1, pf, perm)
  {
    hide Flat, Pte, HasTable;
    forall g | 0 <= g < |own0|
      ensures own0[g].Dir? ==> own1[g].Dir?
      ensures OwnRange(own0[g], own[g], d, first, a + 1, pf, g)
    {
      assert OwnRange(own0[g], own1[g], d, first, a, pf, g);
      assert pf <= g < pf + (a - first) && first + (g - pf) < USERPAGES ==> SpareAt(own0, g);
    }
    forall e, k | 0 <= e < |mem0| && own0[e].Dir? && 0 <= k < 1024
      ensures HasTable(mem, e, k)
         <==> HasTable(mem0, e, k) || (e == d && a + 1 > first && first / 1024 <= k <= a / 1024)
    {
      Rounds(first, a);
      assert HasTable(mem, e, k) <==> HasTable(mem1, e, k) || (e == d && k == a / 1024);
    }
  }

  /** Pages in use for data keep their contents. */
  ghost predicate Kept(mem: Mem, own: Owners, mem': Mem)
  {
    |mem'| == |mem| == |own| && forall g :: 0 <= g < |own| && (own[g].Data? || own[g].Other?) ==> mem'[g] == mem[g]
  }

  /** The flat map of d has w at vp, and no flat map differs elsewhere. */
  ghost predicate Mapped(mem: Mem, own: Owners, mem': Mem, d: int, vp: int, w: int)
  {
    forall e, wp :: 0 <= e < |mem| && e < |own| && own[e].Dir? && 0 <= wp < PAGES ==>
      Flat(mem', e, wp) == if e == d && wp == vp then w else Flat(mem, e, wp)
  }

  ghost predicate AddsTable(mem: Mem, own: Owners, mem': Mem, d: int, i: int)
  {
    forall e, k :: 0 <= e < |mem| && e < |own| && own[e].Dir? && 0 <= k < 1024 ==>
      (HasTable(mem', e, k) <==> HasTable(mem, e, k) || (e == d && k == i))
  }

  /** own' is own with f used for vp, and with the new table nt unless that is -1. */
  ghost predicate Owned(own: Owners, own': Owners, d: int, vp: int, f: int, nt: int)
  {
    && |own'| == |own| && (nt != -1 ==> 0 <= nt < |own| && own[nt].Free?)
    && forall g :: 0 <= g < |own| ==>
         own'[g] == if vp < USERPAGES && g == f then Data(d, vp) else if g == nt then Table(d, vp / 1024) else own[g]
  }

  /** Writing the entry keeps everything. */
  lemma SetEntry(mem: Mem, own: Owners, head: int, free: seq<int>, lo: int, d: int, vp: int, f: int, perm: int)
    requires Consistent(mem, own) && FreeOk(mem, own, head, free, lo) && 0 <= d < |own| && own[d].Dir?
    requires 0 <= vp < PAGES && 0 <= perm < 4096
    requires d < |mem| && HasTable(mem, d, vp / 1024) && !Present(Flat(mem, d, vp))
    requires vp < USERPAGES ==> 0 < lo <= f < |mem| && own[f].Other?
    requires var t := Frame(mem[d][vp / 1024]); 0 <= t < |mem| && |mem[t]| == ENTRIES
    ensures var t := Frame(mem[d][vp / 1024]);
      var mem', own' := mem[t := mem[t][vp % 1024 := Pte(f, perm)]],
                        if vp < USERPAGES then own[f := Data(d, vp)] else own;
      Consistent(mem', own') && FreeOk(mem', own', head, free, lo)
  {
    hide Flat, Pte, Consistent;
    var t := Frame(mem[d][vp / 1024]);
    PdeAt(mem, own, d, vp / 1024);
    if vp < USERPAGES {
      MapUser(mem, own, d, vp, f, perm);
    } else {
      MapKernel(mem, own, d, vp, Pte(f, perm));
    }
    var mem' := mem[t := mem[t][vp % 1024 := Pte(f, perm)]];
    ChainFrame(mem, mem', head, free);
  }

  lemma SetMaps(mem0: Mem, own0: Owners, mem: Mem, own: Owners, d: int, vp: int, f: int, perm: int)
    requires Consistent(mem0, own0) && Consistent(mem, own) && |mem0| == |mem| && SameMaps(mem0, own0, mem)
    requires 0 <= perm < 4096
    requires 0 <= d < |own| && own[d].Dir? && own0[d].Dir? && 0 <= vp < PAGES && HasTable(mem, d, vp / 1024)
    requires forall e :: 0 <= e < |own| && own0[e].Dir? ==> own[e].Dir?
    requires mem == mem0 || AddsTable(mem0, own0, mem, d, vp / 1024)
    ensures var t := Frame(mem[d][vp / 1024]);
      && 0 <= t < |mem|
      && var mem' := mem[t := mem[t][vp % 1024 := Pte(f, perm)]];
         Mapped(mem0, own0, mem', d, vp, Pte(f, perm)) && AddsTable(mem0, own0, mem', d, vp / 1024)
  {
    hide Pte, Flat;
    PdeAt(mem, own, d, vp / 1024);
    PteParts(f, perm);
    var t := Frame(mem[d][vp / 1024]);
    var mem' := mem[t := mem[t][vp % 1024 := Pte(f, perm)]];
    forall e, wp | 0 <= e < |mem0| && e < |own0| && own0[e].Dir? && 0 <= wp < PAGES
      ensures Flat(mem', e, wp) == if e == d && wp == vp then Pte(f, perm) else Flat(mem0, e, wp)
    {
      FlatSet(mem, own, d, vp, Pte(f, perm), e, wp);
    }
    forall e, k | 0 <= e < |mem0| && e < |own0| && own0[e].Dir? && 0 <= k < 1024
      ensures HasTable(mem', e, k) <==> HasTable(mem0, e, k) || (e == d && k == vp / 1024)
    {
      assert e != t && mem'[e] == mem[e];
    }
  }

  lemma Sizes(mem: Mem, own: Owners, head: int, free: seq<int>, lo: int)
    requires FreeOk(mem, own, head, free, lo)
    ensures |own| == |mem| && lo > 0
  {
  }

  /** The free list does not notice a new table. */
  lemma TableFree(mem: Mem, own: Owners, head: int, free: seq<int>, lo: int, d: int, i: int, t: int, zeros: seq<int>)
    requires FreeOk(mem, own, head, free, lo) && 0 <= d < |mem| && own[d].Dir? && lo <= t < |mem| && own[t].Other?
    requires 0 <= i < |mem[d]|
    ensures FreeOk(mem[t := zeros][d := mem[d][i := Pte(t, 6)]], own[t := Table(d, i)], head, free, lo)
  {
    var mem' := mem[t := zeros][d := mem[d][i := Pte(t, 6)]];
    ChainFrame(mem, mem', head, free);
  }

  lemma TableAt(t: int)
    ensures Present(Pte(t, 6)) && Frame(Pte(t, 6)) == t
  {
  }
}
