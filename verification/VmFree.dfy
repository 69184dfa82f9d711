/**
What deallocuvm clears, including what its jump over absent tables passes by.
*/
module VmFree {
  import opened VmSpace

  /** Page vp lies in the first table present after a0's, at an offset below a0's: deallocuvm, started
      at a0 where there is no table, jumps over it. */
  ghost predicate Missed(mem: Mem, d: int, a0: int, vp: int)
  {
    && vp / 1024 > a0 / 1024 && vp % 1024 < a0 % 1024
    && forall k :: a0 / 1024 <= k < vp / 1024 ==> !HasTable(mem, d, k)
  }

  ghost predicate Cleared(mem: Mem, d: int, a0: int, top: int, vp: int)
  {
    a0 <= vp < top && !Missed(mem, d, a0, vp)
  }

  predicate GoesWith(o: Owner, d: int)
  {
    o.Data? && o.dir == d
  }

  /** Pages that stay in use for data keep their contents. */
  ghost predicate Stays(mem: Mem, own: Owners, mem': Mem, own': Owners)
  {
    && |own'| == |own| == |mem| == |mem'|
    && forall g :: 0 <= g < |own| && (own[g].Data? || own[g].Other?) && own'[g] == own[g] ==> mem'[g] == mem[g]
  }

  /** The pages of d from a0 up to top are unmapped and their frames free, but for those missed; other
      pages in use are untouched. */
  ghost predicate Freed(mem: Mem, own: Owners, mem': Mem, own': Owners, d: int, a0: int, top: int)
  {
    && |own'| == |own| == |mem| == |mem'| && Stays(mem, own, mem', own')
    && (forall e, wp :: 0 <= e < |mem| && own[e].Dir? && 0 <= wp < PAGES ==>
          Flat(mem', e, wp) == if e == d && Cleared(mem, d, a0, top, wp) then 0 else Flat(mem, e, wp))
    && (forall e, k :: 0 <= e < |mem| && own[e].Dir? && 0 <= k < 1024 ==>
          (HasTable(mem', e, k) <==> HasTable(mem, e, k)))
    && (forall g :: 0 <= g < |own| ==>
          own'[g] == if GoesWith(own[g], d) && Cleared(mem, d, a0, top, own[g].vp) then Free else own[g])
  }

  /** Where the loop of deallocuvm can be. */
  ghost predicate Going(mem: Mem, d: int, a0: int, a: int)
  {
    && 0 <= a0 <= a && !Missed(mem, d, a0, a)
    && (|| a % 1024 == 0 || HasTable(mem, d, a / 1024)
        || (a % 1024 == a0 % 1024 && forall k :: a0 / 1024 <= k < a / 1024 ==> !HasTable(mem, d, k)))
  }

  lemma GoOn(mem: Mem, d: int, a0: int, a: int)
    requires Going(mem, d, a0, a) && HasTable(mem, d, a / 1024)
    ensures Going(mem, d, a0, a + 1)
  {
  }

  /** The jump: what it passes is unmapped already, or missed. */
  lemma Jump(mem: Mem, d: int, a0: int, a: int)
    requires Going(mem, d, a0, a) && !HasTable(mem, d, a / 1024)
    ensures Going(mem, d, a0, a + 1024)
    ensures forall vp :: a <= vp < a + 1024 && !Missed(mem, d, a0, vp) ==> Flat(mem, d, vp) == 0
  {
  }

  lemma FreedNone(mem: Mem, own: Owners, d: int, a0: int)
    requires |own| == |mem|
    ensures Freed(mem, own, mem, own, d, a0, a0)
  {
  }

  /** Pages that were not mapped count as cleared. */
  lemma FreedSkip(mem0: Mem, own0: Owners, mem: Mem, own: Owners, d: int, a0: int, a: int, b: int)
    requires Consistent(mem0, own0) && Freed(mem0, own0, mem, own, d, a0, a) && a0 <= a <= b
    requires forall vp :: a <= vp < b && !Missed(mem0, d, a0, vp) ==> Flat(mem0, d, vp) == 0
    ensures Freed(mem0, own0, mem, own, d, a0, b)
  {
    hide Flat, HasTable, Missed;
    forall g | 0 <= g < |own0|
      ensures own[g] == if GoesWith(own0[g], d) && Cleared(mem0, d, a0, b, own0[g].vp) then Free else own0[g]
    {
      assert OwnOk(mem0, own0, g);
    }
  }

  /** The page at a is unmapped and its frame freed. */
  lemma FreedOne(mem0: Mem, own0: Owners, mem: Mem, own: Owners, d: int, a0: int, a: int, junk: seq<int>)
    requires Freed(mem0, own0, mem, own, d, a0, a) && Consistent(mem, own) && 0 <= d < |mem| && own0[d].Dir?
    requires own[d].Dir? && 0 <= a0 <= a < USERPAGES
    requires Present(Flat(mem, d, a)) && !Missed(mem0, d, a0, a) && |junk| == ENTRIES && |own| == |mem|
    ensures HasTable(mem, d, a / 1024)
    ensures var t, f := Frame(mem[d][a / 1024]), Frame(Flat(mem, d, a));
      && 0 <= t < |mem| && 0 <= f < |mem| && t != f && own[f] == Data(d, a)
      && var mem' := mem[f := junk][t := mem[t][a % 1024 := 0]];
         Consistent(mem', own[f := Free]) && Freed(mem0, own0, mem', own[f := Free], d, a0, a + 1)
  {
    hide Flat, Missed, Consistent, Freed;
    var t, f := MappedAt(mem, own, d, a);
    UnmapUser(mem, own, d, a);
    var mem1 := mem[t := mem[t][a % 1024 := 0]];
    LooseOwner(mem1, own[f := Other], f, junk, Free);
    var mem' := mem[f := junk][t := mem[t][a % 1024 := 0]];
    assert mem1[f := junk] == mem' && own[f := Other][f := Free] == own[f := Free];
    FreedOneMaps(mem0, own0, mem, own, mem1, mem', d, a0, a);
    FreedOneOwn(mem0, own0, mem, own, d, a0, a, f);
    FreedOneTables(mem0, own0, mem, own, mem', d, a0, a, f, t);
    FreedOneStays(mem0, own0, mem, own, mem', d, a0, a, f, t);
    FreedWhole(mem0, own0, mem', own[f := Free], d, a0, a + 1);
  }

  lemma FreedOneStays(mem0: Mem, own0: Owners, mem: Mem, own: Owners, mem': Mem, d: int, a0: int, a: int, f: int,
                      t: int)
    requires Freed(mem0, own0, mem, own, d, a0, a) && 0 <= f < |mem| && 0 <= t < |mem| && own[f].Data? && own[t].Table?
    requires |mem'| == |mem| && forall g :: 0 <= g < |mem| && g != f && g != t ==> mem'[g] == mem[g]
    ensures Stays(mem0, own0, mem', own[f := Free])
  {
    hide Flat, HasTable, Cleared;
  }

  lemma FreedWhole(mem: Mem, own: Owners, mem': Mem, own': Owners, d: int, a0: int, top: int)
    requires |own'| == |own| == |mem| == |mem'| && Stays(mem, own, mem', own') && FreedMaps(mem, own, mem', d, a0, top)
    requires FreedTables(mem, own, mem') && FreedOwn(mem, own, own', d, a0, top)
    ensures Freed(mem, own, mem', own', d, a0, top)
  {
  }

  ghost predicate FreedMaps(mem: Mem, own: Owners, mem': Mem, d: int, a0: int, top: int)
    requires |own| == |mem|
  {
    forall e, wp :: 0 <= e < |mem| && own[e].Dir? && 0 <= wp < PAGES ==>
      Flat(mem', e, wp) == if e == d && Cleared(mem, d, a0, top, wp) then 0 else Flat(mem, e, wp)
  }

  ghost predicate FreedTables(mem: Mem, own: Owners, mem': Mem)
    requires |own| == |mem|
  {
    forall e, k :: 0 <= e < |mem| && own[e].Dir? && 0 <= k < 1024 ==> (HasTable(mem', e, k) <==> HasTable(mem, e, k))
  }

  ghost predicate FreedOwn(mem: Mem, own: Owners, own': Owners, d: int, a0: int, top: int)
    requires |own'| == |own|
  {
    forall g :: 0 <= g < |own| ==>
      own'[g] == if GoesWith(own[g], d) && Cleared(mem, d, a0, top, own[g].vp) then Free else own[g]
  }

  lemma FreedOneMaps(mem0: Mem, own0: Owners, mem: Mem, own: Owners, mem1: Mem, mem': Mem, d: int, a0: int, a: int)
    requires Freed(mem0, own0, mem, own, d, a0, a) && Consistent(mem, own) && 0 <= d < |mem| && own[d].Dir?
    requires 0 <= a0 <= a < USERPAGES
    requires HasTable(mem, d, a / 1024) && !Missed(mem0, d, a0, a)
    requires var t := Frame(mem[d][a / 1024]);
      0 <= t < |mem| && |mem[t]| == ENTRIES && mem1 == mem[t := mem[t][a % 1024 := 0]]
    requires |mem1| == |own|
    requires forall e, wp :: 0 <= e < |mem1| && own[e].Dir? && 0 <= wp < PAGES ==>
      Flat(mem', e, wp) == Flat(mem1, e, wp)
    ensures |own0| == |mem0| && FreedMaps(mem0, own0, mem', d, a0, a + 1)
  {
    hide Flat, Missed, HasTable;
    forall e, wp | 0 <= e < |mem0| && own0[e].Dir? && 0 <= wp < PAGES
      ensures Flat(mem', e, wp) == if e == d && Cleared(mem0, d, a0, a + 1, wp) then 0 else Flat(mem0, e, wp)
    {
      FlatSet(mem, own, d, a, 0, e, wp);
    }
  }

  lemma FreedOneOwn(mem0: Mem, own0: Owners, mem: Mem, own: Owners, d: int, a0: int, a: int, f: int)
    requires Freed(mem0, own0, mem, own, d, a0, a) && 0 <= f < |own| && own[f] == Data(d, a)
    requires !Missed(mem0, d, a0, a) && a0 <= a
    requires Consistent(mem, own) && 0 <= d < |mem| && own[d].Dir? && Present(Flat(mem, d, a)) && 0 <= a < USERPAGES
    requires f == Frame(Flat(mem, d, a))
    ensures |own0| == |own| && FreedOwn(mem0, own0, own[f := Free], d, a0, a + 1)
  {
    hide Flat, Missed, HasTable;
    forall g | 0 <= g < |own0|
      ensures own[f := Free][g] ==
        if GoesWith(own0[g], d) && Cleared(mem0, d, a0, a + 1, own0[g].vp) then Free else own0[g]
    {
      assert OwnOk(mem, own, g);
    }
  }

  lemma FreedOneTables(mem0: Mem, own0: Owners, mem: Mem, own: Owners, mem': Mem, d: int, a0: int, a: int, f: int,
                       t: int)
    requires Freed(mem0, own0, mem, own, d, a0, a) && 0 <= f < |mem| && 0 <= t < |mem| && own[f].Data?
    requires own[t].Table? && |mem'| == |mem|
    requires forall g :: 0 <= g < |mem| && g != f && g != t ==> mem'[g] == mem[g]
    ensures |own0| == |mem0| && FreedTables(mem0, own0, mem')
  {
  }
}
