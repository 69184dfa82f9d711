/**
Physical pages and two-level page tables as values (vm.c, kalloc.c; 32-bit paging).  A page is
1024 words; an entry is a frame number times 4096 plus flag bits; a virtual page number vp
selects entry vp / 1024 of the directory and entry vp % 1024 of the table found there.

`own` says what every frame is used for.  It makes the claim "free, mapped and table pages
partition memory" a function, which the entries in memory must agree with, both ways.
*/
module VmSpace {
  import opened Seqs

  const ENTRIES := 1024
  const USERPAGES := 524288   // KERNBASE / PGSIZE
  const PAGES := 1048576

  /** Every frame's words. */
  type Mem = seq<seq<int>>

  datatype Owner = Free | Dir | Table(dir: int, i: int) | Data(dir: int, vp: int) | Other

  type Owners = seq<Owner>

  predicate Present(w: int)
  {
    w % 2 == 1
  }

  function Frame(w: int): int
  {
    w / 4096
  }

  /** The entry for frame f with the given flag bits and PTE_P. */
  function Pte(f: int, perm: int): (w: int)
  {
    f * 4096 + if perm % 2 == 1 then perm else perm + 1
  }

  lemma PteParts(f: int, perm: int)
    requires 0 <= perm < 4096
    ensures Present(Pte(f, perm)) && Frame(Pte(f, perm)) == f
    ensures Pte(f, perm) % 4096 == if perm % 2 == 1 then perm else perm + 1
  {
    var x := if perm % 2 == 1 then perm else perm + 1;
    if perm % 2 == 0 { HalfOf(perm); }
    EntryParts(f, x);
  }

  lemma HalfOf(perm: int)
    requires perm < 4096 && perm % 2 == 0
    ensures perm < 4095 && (perm + 1) % 2 == 1
  {
  }

  lemma EntryParts(f: int, x: int)
    requires 0 <= x < 4096 && x % 2 == 1
    ensures (f * 4096 + x) / 4096 == f && (f * 4096 + x) % 4096 == x && (f * 4096 + x) % 2 == 1
  {
    var h := x / 2;
    assert x == 2 * h + 1;
    assert f * 4096 + x == 2 * (f * 2048 + h) + 1;
  }

  // ---------------------------------------------------------------- the flat map

  /** The page table entry of virtual page vp, or 0. */
  ghost function Flat(mem: Mem, d: int, vp: int): int
  {
    if 0 <= d < |mem| && 0 <= vp && vp / 1024 < |mem[d]| && Present(mem[d][vp / 1024])
    then Look(mem, Frame(mem[d][vp / 1024]), vp % 1024)
    else 0
  }

  ghost function Look(mem: Mem, t: int, j: int): int
  {
    if 0 <= t < |mem| && 0 <= j < |mem[t]| && Present(mem[t][j]) then mem[t][j] else 0
  }

  // ---------------------------------------------------------------- agreement with own

  ghost predicate PdeOk(mem: Mem, own: Owners, d: int, i: int)
    requires |own| == |mem| && 0 <= d < |mem| && 0 <= i < |mem[d]|
  {
    Present(mem[d][i]) ==>
      && 0 <= Frame(mem[d][i]) < |own| && own[Frame(mem[d][i])] == Table(d, i)
      && mem[d][i] % 4096 == 7
  }

  ghost predicate PteOk(mem: Mem, own: Owners, t: int, j: int)
    requires |own| == |mem| && 0 <= t < |mem| && 0 <= j < |mem[t]| && own[t].Table?
  {
    Present(mem[t][j]) ==>
      0 <= Frame(mem[t][j]) < |own| && own[Frame(mem[t][j])] == Data(own[t].dir, own[t].i * 1024 + j)
  }

  /** The frame's use, found again in memory. */
  ghost predicate OwnOk(mem: Mem, own: Owners, f: int)
    requires |own| == |mem| && 0 <= f < |own|
  {
    match own[f]
    case Table(d, i) => 0 <= d < |own| && own[d].Dir? && 0 <= i < 1024 && i < |mem[d]|
      && Present(mem[d][i]) && Frame(mem[d][i]) == f
    case Data(d, vp) => 0 <= d < |own| && own[d].Dir? && 0 <= vp < USERPAGES
      && Present(Flat(mem, d, vp)) && Frame(Flat(mem, d, vp)) == f
    case _ => true
  }

  ghost predicate Consistent(mem: Mem, own: Owners)
  {
    && |own| == |mem|
    && (forall f :: 0 <= f < |mem| ==> |mem[f]| == ENTRIES)
    && (forall d, i :: 0 <= d < |mem| && own[d].Dir? && 0 <= i < 1024 ==> PdeOk(mem, own, d, i))
    && (forall t, j :: 0 <= t < |mem| && own[t].Table? && own[t].i < 512 && 0 <= j < 1024 ==> PteOk(mem, own, t, j))
    && (forall f :: 0 <= f < |mem| ==> OwnOk(mem, own, f))
  }

  /** Every address space's flat map is the same in mem'. */
  ghost predicate SameMaps(mem: Mem, own: Owners, mem': Mem)
    requires |own| == |mem|
  {
    forall d, vp :: 0 <= d < |mem| && own[d].Dir? && 0 <= vp < PAGES ==> Flat(mem', d, vp) == Flat(mem, d, vp)
  }

  // ---------------------------------------------------------------- the free list

  /** Each free page's first word links to the next; 0 ends the list. */
  ghost predicate Chain(mem: Mem, head: int, free: seq<int>)
    decreases |free|
  {
    if free == [] then head == 0
    else 0 < free[0] < |mem| && head == free[0] && |mem[free[0]]| == ENTRIES && Chain(mem, mem[free[0]][0], free[1..])
  }

  /** The list holds exactly the frames owned by nobody; those below lo are not given out. */
  ghost predicate FreeOk(mem: Mem, own: Owners, head: int, free: seq<int>, lo: int)
  {
    && Chain(mem, head, free) && Distinct(free) && |own| == |mem| && lo > 0
    && (forall f :: 0 <= f < |own| && own[f].Free? ==> f in free && f >= lo)
    && (forall k :: 0 <= k < |free| ==> 0 <= free[k] < |own| && own[free[k]].Free?)
    && (forall f :: 0 <= f < |own| && f < lo ==> own[f].Other?)
  }

  // ---------------------------------------------------------------- steps: taking and giving frames

  lemma {:induction false} ChainFrame(mem: Mem, mem': Mem, head: int, free: seq<int>)
    requires Chain(mem, head, free) && |mem'| == |mem|
    requires forall k :: 0 <= k < |free| && 0 <= free[k] < |mem| ==> mem'[free[k]] == mem[free[k]]
    ensures Chain(mem', head, free)
    decreases |free|
  {
    if free != [] {
      assert mem'[free[0]] == mem[free[0]];
      forall k | 0 <= k < |free[1..]| && 0 <= free[1..][k] < |mem| ensures mem'[free[1..][k]] == mem[free[1..][k]] {
        assert free[1..][k] == free[k + 1];
      }
      ChainFrame(mem, mem', mem[free[0]][0], free[1..]);
    }
  }

  /** A frame that no entry refers to changes its use; its contents may change. */
  lemma LooseOwner(mem: Mem, own: Owners, f: int, page: seq<int>, o: Owner)
    requires Consistent(mem, own) && 0 <= f < |mem| && (own[f].Free? || own[f].Other?) && (o.Free? || o.Other?)
    requires |page| == ENTRIES
    ensures Consistent(mem[f := page], own[f := o])
    ensures SameMaps(mem, own, mem[f := page])
  {
    var mem', own' := mem[f := page], own[f := o];
    forall d, vp | 0 <= d < |mem| && own[d].Dir? && 0 <= vp < PAGES ensures Flat(mem', d, vp) == Flat(mem, d, vp) {
      LooseFlat(mem, own, f, page, d, vp);
    }
    forall d, i | 0 <= d < |mem'| && own'[d].Dir? && 0 <= i < 1024 ensures PdeOk(mem', own', d, i) {
      assert PdeOk(mem, own, d, i);
    }
    forall t, j | 0 <= t < |mem'| && own'[t].Table? && own'[t].i < 512 && 0 <= j < 1024
      ensures PteOk(mem', own', t, j)
    {
      assert PteOk(mem, own, t, j);
    }
    forall g | 0 <= g < |mem'| ensures OwnOk(mem', own', g) {
      assert OwnOk(mem, own, g);
    }
  }

  lemma LooseFlat(mem: Mem, own: Owners, f: int, page: seq<int>, d: int, vp: int)
    requires Consistent(mem, own) && 0 <= f < |mem| && (own[f].Free? || own[f].Other?) && |page| == ENTRIES
    requires 0 <= d < |mem| && own[d].Dir? && 0 <= vp < PAGES
    ensures Flat(mem[f := page], d, vp) == Flat(mem, d, vp)
  {
    assert PdeOk(mem, own, d, vp / 1024);
  }

  /** kalloc's pop. */
  lemma PopFree(mem: Mem, own: Owners, head: int, free: seq<int>, lo: int)
    requires Consistent(mem, own) && FreeOk(mem, own, head, free, lo) && head != 0
    ensures |free| > 0 && free[0] == head && lo <= head < |mem| && own[head].Free? && |mem[head]| == ENTRIES
    ensures FreeOk(mem, own[head := Other], mem[head][0], free[1..], lo) && Consistent(mem, own[head := Other])
  {
    var f := free[0];
    assert free[0] in free;
    LooseOwner(mem, own, f, mem[f], Other);
    assert mem[f := mem[f]] == mem;
    var own', free' := own[f := Other], free[1..];
    forall g | 0 <= g < |own'| && own'[g].Free? ensures g in free' && g >= lo {
      var k :| 0 <= k < |free| && free[k] == g;
      assert free'[k - 1] == g;
    }
    forall k | 0 <= k < |free'| ensures 0 <= free'[k] < |own'| && own'[free'[k]].Free? {
      assert free'[k] == free[k + 1];
    }
  }

  /** kfree's page: junk everywhere but the link. */
  function Junk(head: int): (page: seq<int>)
    ensures |page| == ENTRIES && page[0] == head
  {
    [head] + seq(ENTRIES - 1, _ => 0x01010101)
  }

  lemma PushChain(mem: Mem, head: int, free: seq<int>, f: int)
    requires Chain(mem, head, free) && 0 < f < |mem| && f !in free
    ensures Chain(mem[f := Junk(head)], f, [f] + free)
  {
    var mem', free' := mem[f := Junk(head)], [f] + free;
    ChainFrame(mem, mem', head, free);
    assert free'[1..] == free;
  }

  lemma PushListed(own: Owners, free: seq<int>, lo: int, f: int, g: int)
    requires 0 <= f < |own| && lo <= f && (forall x :: 0 <= x < |own| && own[x].Free? ==> x in free && x >= lo)
    requires 0 <= g < |own| && own[f := Free][g].Free?
    ensures g in [f] + free && g >= lo
  {
    if g == f {
      assert ([f] + free)[0] == g;
    }
  }

  lemma PushDistinct(free: seq<int>, f: int)
    requires Distinct(free) && f !in free
    ensures Distinct([f] + free)
  {
    var free' := [f] + free;
    forall i, j | 0 <= i < j < |free'| ensures free'[i] != free'[j] {
      assert free'[j] == free[j - 1];
    }
  }

  /** kfree's push. */
  lemma PushFree(mem: Mem, own: Owners, head: int, free: seq<int>, lo: int, f: int)
    requires FreeOk(mem, own, head, free, lo) && lo <= f < |mem| && !own[f].Free?
    ensures FreeOk(mem[f := Junk(head)], own[f := Free], f, [f] + free, lo)
  {
    hide Chain, Distinct, Junk;
    var own', free' := own[f := Free], [f] + free;
    PushChain(mem, head, free, f);
    PushDistinct(free, f);
    forall g | 0 <= g < |own'| && own'[g].Free? ensures g in free' && g >= lo {
      PushListed(own, free, lo, f, g);
    }
    forall k | 0 <= k < |free'| ensures 0 <= free'[k] < |own'| && own'[free'[k]].Free? {
      assert k > 0 ==> free'[k] == free[k - 1];
    }
  }

  // ---------------------------------------------------------------- steps: entries

  ghost predicate HasTable(mem: Mem, d: int, i: int)
  {
    0 <= d < |mem| && 0 <= i < |mem[d]| && Present(mem[d][i])
  }

  /** walkpgdir's new table: zeroed, so the flat map stays the same. */
  lemma NewTable(mem: Mem, own: Owners, d: int, i: int, t: int, zeros: seq<int>)
    requires Consistent(mem, own) && 0 <= d < |mem| && own[d].Dir? && 0 <= i < 1024 && !HasTable(mem, d, i)
    requires 0 <= t < |mem| && own[t].Other? && |zeros| == ENTRIES && forall j :: 0 <= j < 1024 ==> zeros[j] == 0
    ensures d != t
    ensures var mem' := mem[t := zeros][d := mem[d][i := Pte(t, 6)]];
      && Consistent(mem', own[t := Table(d, i)])
      && SameMaps(mem, own, mem')
      && (forall e, k :: 0 <= e < |mem| && own[e].Dir? && 0 <= k < 1024 ==>
            (HasTable(mem', e, k) <==> HasTable(mem, e, k) || (e == d && k == i)))
  {
    hide Pte;
    PteParts(t, 6);
    var mem', own' := mem[t := zeros][d := mem[d][i := Pte(t, 6)]], own[t := Table(d, i)];
    forall e, vp | 0 <= e < |mem| && own[e].Dir? && 0 <= vp < PAGES ensures Flat(mem', e, vp) == Flat(mem, e, vp) {
      assert PdeOk(mem, own, e, vp / 1024);
    }
    forall e, k | 0 <= e < |mem'| && own'[e].Dir? && 0 <= k < 1024 ensures PdeOk(mem', own', e, k) {
      assert PdeOk(mem, own, e, k);
    }
    forall u, j | 0 <= u < |mem'| && own'[u].Table? && own'[u].i < 512 && 0 <= j < 1024
      ensures PteOk(mem', own', u, j)
    {
      if u != t { assert PteOk(mem, own, u, j); }
    }
    forall g | 0 <= g < |mem'| ensures OwnOk(mem', own', g) {
      assert OwnOk(mem, own, g);
    }
  }

  /** One entry of the table for (d, vp) changes: so does the flat map, there and nowhere else. */
  lemma FlatSet(mem: Mem, own: Owners, d: int, vp: int, w: int, e: int, wp: int)
    requires Consistent(mem, own) && 0 <= d < |mem| && own[d].Dir? && 0 <= vp < PAGES && HasTable(mem, d, vp / 1024)
    requires 0 <= e < |mem| && own[e].Dir? && 0 <= wp < PAGES
    ensures var t := Frame(mem[d][vp / 1024]);
      && 0 <= t < |mem| && own[t] == Table(d, vp / 1024)
      && Flat(mem[t := mem[t][vp % 1024 := w]], e, wp)
         == if e == d && wp == vp then (if Present(w) then w else 0) else Flat(mem, e, wp)
  {
    assert PdeOk(mem, own, d, vp / 1024) && PdeOk(mem, own, e, wp / 1024);
  }

  /** *pte = pa | perm | PTE_P, for a user page and a frame fresh from kalloc. */
  lemma MapUser(mem: Mem, own: Owners, d: int, vp: int, f: int, perm: int)
    requires Consistent(mem, own) && 0 <= d < |mem| && own[d].Dir? && 0 <= vp < USERPAGES && HasTable(mem, d, vp / 1024)
    requires !Present(Flat(mem, d, vp)) && 0 <= f < |mem| && own[f].Other? && 0 <= perm < 4096
    ensures var t := Frame(mem[d][vp / 1024]);
      0 <= t < |mem| && Consistent(mem[t := mem[t][vp % 1024 := Pte(f, perm)]], own[f := Data(d, vp)])
  {
    hide Pte, Flat;
    PteParts(f, perm);
    var i, j := vp / 1024, vp % 1024;
    assert PdeOk(mem, own, d, i);
    var t := Frame(mem[d][i]);
    var mem', own' := mem[t := mem[t][j := Pte(f, perm)]], own[f := Data(d, vp)];
    forall e, k | 0 <= e < |mem'| && own'[e].Dir? && 0 <= k < 1024 ensures PdeOk(mem', own', e, k) {
      assert PdeOk(mem, own, e, k);
    }
    forall u, k | 0 <= u < |mem'| && own'[u].Table? && own'[u].i < 512 && 0 <= k < 1024
      ensures PteOk(mem', own', u, k)
    {
      assert PteOk(mem, own, u, k);
    }
    forall g | 0 <= g < |mem'| ensures OwnOk(mem', own', g) {
      MapOwn(mem, own, d, vp, f, perm, g);
    }
  }

  lemma MapOwn(mem: Mem, own: Owners, d: int, vp: int, f: int, perm: int, g: int)
    requires Consistent(mem, own) && 0 <= d < |mem| && own[d].Dir? && 0 <= vp < USERPAGES && HasTable(mem, d, vp / 1024)
    requires !Present(Flat(mem, d, vp)) && 0 <= f < |mem| && own[f].Other? && 0 <= perm < 4096 && 0 <= g < |mem|
    ensures var t := Frame(mem[d][vp / 1024]);
      0 <= t < |mem| && OwnOk(mem[t := mem[t][vp % 1024 := Pte(f, perm)]], own[f := Data(d, vp)], g)
  {
    hide Pte, Flat;
    PteParts(f, perm);
    var w := Pte(f, perm);
    FlatSet(mem, own, d, vp, w, d, vp);
    assert OwnOk(mem, own, g);
    if own[g].Data? && 0 <= own[g].dir < |mem| {
      FlatSet(mem, own, d, vp, w, own[g].dir, own[g].vp);
    }
  }

  /** Where the entry of a mapped user page is. */
  lemma MappedAt(mem: Mem, own: Owners, d: int, vp: int) returns (t: int, f: int)
    requires Consistent(mem, own) && 0 <= d < |mem| && own[d].Dir? && 0 <= vp < USERPAGES && Present(Flat(mem, d, vp))
    ensures HasTable(mem, d, vp / 1024) && t == Frame(mem[d][vp / 1024]) && f == Frame(Flat(mem, d, vp))
    ensures 0 <= t < |mem| && own[t] == Table(d, vp / 1024) && 0 <= f < |mem| && own[f] == Data(d, vp)
    ensures |mem[t]| == ENTRIES && Flat(mem, d, vp) == mem[t][vp % 1024]
  {
    assert PdeOk(mem, own, d, vp / 1024);
    t := Frame(mem[d][vp / 1024]);
    assert PteOk(mem, own, t, vp % 1024);
    f := Frame(mem[t][vp % 1024]);
  }

  /** An entry of another place does not refer to the frame of (d, vp). */
  lemma EntryElsewhere(mem: Mem, own: Owners, t: int, j: int, d: int, vp: int)
    requires Consistent(mem, own) && 0 <= t < |mem| && own[t].Table? && own[t].i < 512 && 0 <= j < 1024
    requires Present(mem[t][j])
    requires 0 <= d < |mem| && HasTable(mem, d, vp / 1024) && vp >= 0
    requires t != Frame(mem[d][vp / 1024]) || j != vp % 1024
    ensures PteOk(mem, own, t, j) && own[Frame(mem[t][j])] != Data(d, vp)
  {
    assert PteOk(mem, own, t, j) && OwnOk(mem, own, t);
    Split(own[t].i, j);
  }

  lemma Split(i: int, j: int)
    requires 0 <= j < 1024
    ensures (i * 1024 + j) / 1024 == i && (i * 1024 + j) % 1024 == j
  {
  }

  /** *pte = 0 for a mapped user page, whose frame is then nobody's. */
  lemma UnmapUser(mem: Mem, own: Owners, d: int, vp: int)
    requires Consistent(mem, own) && 0 <= d < |mem| && own[d].Dir? && 0 <= vp < USERPAGES && Present(Flat(mem, d, vp))
    ensures HasTable(mem, d, vp / 1024)
    ensures var t, f := Frame(mem[d][vp / 1024]), Frame(Flat(mem, d, vp));
      0 <= t < |mem| && 0 <= f < |mem| && Consistent(mem[t := mem[t][vp % 1024 := 0]], own[f := Other])
  {
    hide Flat;
    var t, f := MappedAt(mem, own, d, vp);
    var j := vp % 1024;
    var mem', own' := mem[t := mem[t][j := 0]], own[f := Other];
    forall e, k | 0 <= e < |mem'| && own'[e].Dir? && 0 <= k < 1024 ensures PdeOk(mem', own', e, k) {
      assert PdeOk(mem, own, e, k);
    }
    forall u, k | 0 <= u < |mem'| && own'[u].Table? && own'[u].i < 512 && 0 <= k < 1024
      ensures PteOk(mem', own', u, k)
    {
      if Present(mem'[u][k]) {
        EntryElsewhere(mem, own, u, k, d, vp);
      }
    }
    forall g | 0 <= g < |mem'| ensures OwnOk(mem', own', g) {
      UnmapOwn(mem, own, d, vp, g);
    }
  }

  lemma UnmapOwn(mem: Mem, own: Owners, d: int, vp: int, g: int)
    requires Consistent(mem, own) && 0 <= d < |mem| && own[d].Dir? && 0 <= vp < USERPAGES && Present(Flat(mem, d, vp))
    requires HasTable(mem, d, vp / 1024) && 0 <= g < |mem|
    ensures var t, f := Frame(mem[d][vp / 1024]), Frame(Flat(mem, d, vp));
      0 <= t < |mem| && 0 <= f < |mem| && OwnOk(mem[t := mem[t][vp % 1024 := 0]], own[f := Other], g)
  {
    assert PdeOk(mem, own, d, vp / 1024);
    assert PteOk(mem, own, Frame(mem[d][vp / 1024]), vp % 1024);
    assert OwnOk(mem, own, g);
    if own[g].Data? && 0 <= own[g].dir < |mem| {
      FlatSet(mem, own, d, vp, 0, own[g].dir, own[g].vp);
    }
  }

  /** An entry of a kernel table has no owner to agree with. */
  lemma MapKernel(mem: Mem, own: Owners, d: int, vp: int, w: int)
    requires Consistent(mem, own) && 0 <= d < |mem| && own[d].Dir? && USERPAGES <= vp < PAGES
    requires HasTable(mem, d, vp / 1024)
    ensures var t := Frame(mem[d][vp / 1024]);
      0 <= t < |mem| && Consistent(mem[t := mem[t][vp % 1024 := w]], own)
  {
    hide Flat;
    assert PdeOk(mem, own, d, vp / 1024);
    var t := Frame(mem[d][vp / 1024]);
    var mem' := mem[t := mem[t][vp % 1024 := w]];
    forall e, k | 0 <= e < |mem'| && own[e].Dir? && 0 <= k < 1024 ensures PdeOk(mem', own, e, k) {
      assert PdeOk(mem, own, e, k);
    }
    forall u, k | 0 <= u < |mem'| && own[u].Table? && own[u].i < 512 && 0 <= k < 1024 ensures PteOk(mem', own, u, k) {
      assert PteOk(mem, own, u, k);
    }
    forall g | 0 <= g < |mem'| ensures OwnOk(mem', own, g) {
      assert OwnOk(mem, own, g);
      if own[g].Data? && 0 <= own[g].dir < |mem| {
        FlatSet(mem, own, d, vp, w, own[g].dir, own[g].vp);
      }
    }
  }

  lemma PdeAt(mem: Mem, own: Owners, d: int, i: int)
    requires Consistent(mem, own) && 0 <= d < |mem| && own[d].Dir? && HasTable(mem, d, i)
    ensures 0 <= i < 1024 && 0 <= Frame(mem[d][i]) < |mem| && own[Frame(mem[d][i])] == Table(d, i)
    ensures Frame(mem[d][i]) != d && |mem[Frame(mem[d][i])]| == ENTRIES
    ensures mem[d][i] == Frame(mem[d][i]) * 4096 + 7
  {
    assert PdeOk(mem, own, d, i);
  }

  // ---------------------------------------------------------------- what the processor sees

  /** An access to page vp reaches frame f: the directory entry and the table entry are both present
      and both have the flag asked for (1 for PTE_P alone, 2 for PTE_W, 4 for PTE_U). */
  ghost predicate Reaches(mem: Mem, d: int, vp: int, flag: int, f: int)
    requires flag > 0
  {
    && 0 <= d < |mem| && 0 <= vp && vp / 1024 < |mem[d]|
    && var p := mem[d][vp / 1024];
    && p % 2 == 1 && p / flag % 2 == 1 && 0 <= p / 4096 < |mem| && vp % 1024 < |mem[p / 4096]|
    && var w := mem[p / 4096][vp % 1024];
    && w % 2 == 1 && w / flag % 2 == 1 && w / 4096 == f
  }

  /** Directory entries allow everything, so the table entry alone decides. */
  lemma ReachesIff(mem: Mem, own: Owners, d: int, vp: int, flag: int, f: int)
    requires Consistent(mem, own) && 0 <= d < |mem| && own[d].Dir? && 0 <= vp < PAGES
    requires flag == 1 || flag == 2 || flag == 4
    ensures var w := Flat(mem, d, vp);
      Reaches(mem, d, vp, flag, f) <==> w % 2 == 1 && w / flag % 2 == 1 && w / 4096 == f
  {
    if HasTable(mem, d, vp / 1024) {
      PdeAt(mem, own, d, vp / 1024);
      Sevens(mem[d][vp / 1024]);
    }
  }

  lemma Sevens(w: int)
    requires w % 4096 == 7
    ensures w % 2 == 1 && w / 1 % 2 == 1 && w / 2 % 2 == 1 && w / 4 % 2 == 1
  {
    FlagsDecide(w);
  }

  lemma FlagsDecide(w: int)
    ensures w % 2 == w % 4096 % 2 && w / 2 % 2 == w % 4096 / 2 % 2 && w / 4 % 2 == w % 4096 / 4 % 2
  {
    var f, x := w / 4096, w % 4096;
    TwoOf(2048 * f, x);
    TwoOf(1024 * f, x / 2);
    TwoOf(512 * f, x / 4);
    assert w == 2 * (2048 * f) + x;
    Halves(2048 * f, x);
    assert w / 2 == 2 * (1024 * f) + x / 2;
    Halves(1024 * f, x / 2);
    assert w / 2 / 2 == 2 * (512 * f) + x / 2 / 2;
  }

  lemma TwoOf(a: int, x: int)
    ensures (2 * a + x) % 2 == x % 2
  {
  }

  lemma Halves(a: int, x: int)
    ensures (2 * a + x) / 2 == a + x / 2
  {
  }
}
