/**
What the page table code promises, and exactly when.
*/
module VmTheorems {
  import opened VmSpace
  import opened VmFree
  import opened VmMap
  import opened VmGrow
  import opened VmCopy
  import opened VmOps

  /** Free, directory, table and user pages are four kinds of frame with no frame in two of them, and
      every use is one entry's alone: two entries never refer to the same frame. */
  lemma Partition(mem: Mem, own: Owners, head: int, free: seq<int>, lo: int, d: int, vp: int, e: int, wp: int, i: int)
    requires Consistent(mem, own) && FreeOk(mem, own, head, free, lo) && 0 <= d < |own| && own[d].Dir?
    requires 0 <= e < |own| && own[e].Dir?
    requires 0 <= vp < USERPAGES && 0 <= wp < USERPAGES && Present(Flat(mem, d, vp))
    ensures var f := Frame(Flat(mem, d, vp));
      && lo <= f < |mem| && f !in free && !own[f].Dir?
      && (Present(Flat(mem, e, wp)) && Frame(Flat(mem, e, wp)) == f ==> e == d && wp == vp)
      && (HasTable(mem, e, i) && 0 <= i < 1024 ==> Frame(mem[e][i]) != f && Frame(mem[e][i]) !in free)
    ensures forall j :: HasTable(mem, e, i) && HasTable(mem, d, j) && 0 <= i < 1024 && 0 <= j < 1024 ==>
      Frame(mem[e][i]) == Frame(mem[d][j]) ==> e == d && i == j
  {
    hide Flat;
    var t, f := MappedAt(mem, own, d, vp);
    if Present(Flat(mem, e, wp)) {
      var _, _ := MappedAt(mem, own, e, wp);
    }
    assert 0 <= i < 1024 ==> PdeOk(mem, own, e, i);
    forall j | HasTable(mem, d, j) && 0 <= j < 1024
      ensures 0 <= Frame(mem[d][j]) < |own| && own[Frame(mem[d][j])] == Table(d, j)
    {
      PdeAt(mem, own, d, j);
    }
  }

  // ---------------------------------------------------------------- access

  lemma FlagOf(f: int, perm: int, flag: int)
    requires 0 <= perm < 4096 && (flag == 1 || flag == 2 || flag == 4)
    ensures Pte(f, perm) % 2 == 1 && Pte(f, perm) / 4096 == f
    ensures Pte(f, perm) / flag % 2 == 1 <==> flag == 1 || perm / flag % 2 == 1
  {
    PteParts(f, perm);
    FlagsDecide(Pte(f, perm));
  }

  /** After mappages the pages reach their frames, with the flags asked for and no others. */
  lemma MappedReaches(mem: Mem, own: Owners, mem': Mem, own': Owners, d: int, first: int, m: int, pf: int, perm: int,
                      vp: int, flag: int, f: int)
    requires Range(mem, own, mem', own', d, first, m, pf, perm) && Consistent(mem', own') && 0 <= perm < 4096
    requires 0 <= d < |own| && own[d].Dir? && own'[d].Dir? && 0 <= first <= vp < m <= PAGES
    requires flag == 1 || flag == 2 || flag == 4
    ensures Reaches(mem', d, vp, flag, f) <==> (flag == 1 || perm / flag % 2 == 1) && f == pf + (vp - first)
  {
    hide Flat, Reaches, Pte;
    ReachesIff(mem', own', d, vp, flag, f);
    FlagOf(pf + (vp - first), perm, flag);
  }

  /** allocuvm's new pages can be read and written in user mode; each reaches a zeroed frame that was free. */
  lemma GrownReaches(mem0: Mem, own0: Owners, mem: Mem, own: Owners, d: int, a0: int, k: int, lost: int, b: int,
                     vp: int) returns (f: int)
    requires 0 <= b && Grown(mem0, own0, mem, own, d, a0, k, lost, Blank(b)) && Consistent(mem, own)
    requires 0 <= d < |own| && own[d].Dir? && a0 <= vp < k <= USERPAGES
    ensures Reaches(mem, d, vp, 2, f) && Reaches(mem, d, vp, 4, f) && 0 <= f < |own0| && own0[f].Free?
    ensures |mem[f]| == 1024 && forall j :: 0 <= j < 1024 ==> mem[f][j] == 0
  {
    hide Flat, Reaches, Pte;
    assert NewPage(own0, mem, d, vp, Blank(b)[vp]);
    var w := Flat(mem, d, vp);
    f := Frame(w);
    Sevens(w);
    ReachesIff(mem, own, d, vp, 2, f);
    ReachesIff(mem, own, d, vp, 4, f);
  }

  /** The kernel part of an address space: physical memory from KERNBASE on and the devices at the top, closed
      to user mode, with the kernel's text closed to writes. */
  lemma KernelReaches(mem: Mem, own: Owners, d: int, data: int, vp: int, f: int)
    requires Consistent(mem, own) && 0 <= d < |own| && own[d].Dir? && DataOk(data) && USERPAGES <= vp < PAGES
    requires Flat(mem, d, vp) == KernelPte(data, vp)
    ensures !Reaches(mem, d, vp, 4, f)
    ensures Reaches(mem, d, vp, 1, f) <==> (vp < 0x8E000 && f == vp - 0x80000) || (vp >= 0xFE000 && f == vp)
    ensures Reaches(mem, d, vp, 2, f) <==> Reaches(mem, d, vp, 1, f) && !(0x80100 <= vp < 0x80000 + data)
  {
    hide Flat, Reaches, Pte;
    ReachesIff(mem, own, d, vp, 1, f);
    ReachesIff(mem, own, d, vp, 2, f);
    ReachesIff(mem, own, d, vp, 4, f);
    var g := if vp < 0x8E000 then vp - 0x80000 else vp;
    var perm := if 0x80100 <= vp < 0x80000 + data then 0 else 2;
    FlagOf(g, perm, 1);
    FlagOf(g, perm, 2);
    FlagOf(g, perm, 4);
  }

  /** copyuvm's child may do with a page what the parent may, and finds the same contents in a frame of its own. */
  lemma CopyReaches(mem0: Mem, own0: Owners, mem: Mem, own: Owners, p: int, d: int, n: int, data: int, vp: int,
                    flag: int, f: int) returns (g: int)
    requires Copied(mem0, own0, mem, own, p, d, n, data) && Consistent(mem0, own0) && Consistent(mem, own)
    requires 0 <= p < |own0| && own0[p].Dir? && 0 <= vp < n <= USERPAGES && (flag == 1 || flag == 2 || flag == 4)
    requires Reaches(mem0, p, vp, 1, f)
    ensures Reaches(mem, d, vp, 1, g) && (Reaches(mem, d, vp, flag, g) <==> Reaches(mem0, p, vp, flag, f))
    ensures 0 <= f < |own0| == |own| && 0 <= g < |own0| && f != g && own0[g].Free? && own[g] == Data(d, vp)
    ensures |mem0| == |mem| == |own| && mem[g] == mem0[f]
  {
    hide Flat, Reaches;
    assert SamePage(mem0, own0, mem, p, d, vp);
    var w, w' := Flat(mem0, p, vp), Flat(mem, d, vp);
    g := Frame(w');
    ReachesIff(mem0, own0, p, vp, 1, f);
    ReachesIff(mem0, own0, p, vp, flag, f);
    ReachesIff(mem, own, d, vp, 1, g);
    ReachesIff(mem, own, d, vp, flag, g);
    FlagsDecide(w);
    FlagsDecide(w');
    var _, _ := MappedAt(mem0, own0, p, vp);
    var _, _ := MappedAt(mem, own, d, vp);
  }

  // ---------------------------------------------------------------- deallocuvm

  /** The user mappings of d are the pages below n. */
  ghost predicate Prefix(mem: Mem, d: int, n: int)
  {
    forall vp :: 0 <= vp < USERPAGES ==> (Present(Flat(mem, d, vp)) <==> vp < n)
  }

  /** deallocuvm unmaps all it is asked to when the user mappings are a prefix. */
  lemma PrefixUnmapsAll(mem: Mem, own: Owners, mem': Mem, own': Owners, d: int, a0: int, top: int, n: int)
    requires Freed(mem, own, mem', own', d, a0, top) && 0 <= d < |own| && own[d].Dir? && 0 <= a0 && top <= USERPAGES
    requires Prefix(mem, d, n)
    ensures forall vp :: a0 <= vp < top ==> !Present(Flat(mem', d, vp))
    ensures n <= top ==> Prefix(mem', d, Lesser(n, a0))
  {
    hide Flat, HasTable, Missed;
    forall vp | a0 <= vp < top && Missed(mem, d, a0, vp) ensures !Present(Flat(mem, d, vp)) {
      PrefixMissed(mem, d, a0, vp, n);
    }
    UnmapsAll(mem, own, mem', own', d, a0, top);
    forall vp | 0 <= vp < USERPAGES && !(a0 <= vp < top) ensures Flat(mem', d, vp) == Flat(mem, d, vp) {
      assert !Cleared(mem, d, a0, top, vp);
    }
  }

  lemma PrefixMissed(mem: Mem, d: int, a0: int, vp: int, n: int)
    requires Prefix(mem, d, n) && Missed(mem, d, a0, vp) && 0 <= a0 <= vp < USERPAGES
    ensures !Present(Flat(mem, d, vp))
  {
    assert !HasTable(mem, d, a0 / 1024);
    assert Flat(mem, d, a0) == 0;
  }

  function Page(i: int, w: int): (p: seq<int>)
    requires 0 <= i < ENTRIES
    ensures |p| == ENTRIES && forall j :: 0 <= j < ENTRIES ==> p[j] == if j == i then w else 0
  {
    seq(ENTRIES, j => if j == i then w else 0)
  }

  /** A page is missed: an address space with page 1024 only, cut down to one page. */
  lemma MissedExample() returns (mem: Mem, own: Owners)
    ensures Consistent(mem, own) && |own| > 1 && own[1].Dir? && Present(Flat(mem, 1, 1024)) && Missed(mem, 1, 1, 1024)
  {
    hide Pte;
    mem := [Page(0, 0), Page(1, Pte(2, 6)), Page(0, Pte(3, 6)), Page(0, 0)];
    own := [Other, Dir, Table(1, 1), Data(1, 1024)];
    PteParts(2, 6);
    PteParts(3, 6);
    assert Flat(mem, 1, 1024) == Pte(3, 6);
    forall t, j | 0 <= t < |mem| && own[t].Table? && own[t].i < 512 && 0 <= j < 1024 ensures PteOk(mem, own, t, j) {
      assert t == 2;
    }
    forall f | 0 <= f < |mem| ensures OwnOk(mem, own, f) {
      assert f == 0 || f == 1 || f == 2 || f == 3;
    }
    assert !HasTable(mem, 1, 0);
  }

  // ---------------------------------------------------------------- allocuvm

  /** Costs grow with the range. */
  lemma {:induction false} CostGrows(mem: Mem, d: int, a0: int, j: int, k: int)
    requires a0 <= j <= k
    ensures Cost(mem, d, a0, j) + (k - j) <= Cost(mem, d, a0, k)
    decreases k - j
  {
    if j < k { CostGrows(mem, d, a0, j, k - 1); }
  }

  /** That place is determined by the memory before the call. */
  lemma OneStop(mem: Mem, d: int, a0: int, b: int, n: int, k: int, j: int)
    requires Stops(mem, d, a0, b, n, k) && Stops(mem, d, a0, b, n, j)
    ensures k == j && (k == b <==> n >= Cost(mem, d, a0, b))
  {
    if k < j { CostGrows(mem, d, a0, k + 1, j); }
    if j < k { CostGrows(mem, d, a0, j + 1, k); }
    if k < b { CostGrows(mem, d, a0, k + 1, b); }
  }

  /** allocuvm loses a frame exactly when the free frames run out between a page and its table:
      some page of the range needs a new table when one frame is left. */
  lemma LosesIff(mem: Mem, d: int, a0: int, b: int, n: int, k: int)
    requires Stops(mem, d, a0, b, n, k)
    ensures k < b && n == Cost(mem, d, a0, k) + 1
      <==> exists vp :: a0 <= vp < b && Needs(mem, d, a0, vp) && n == Cost(mem, d, a0, vp) + 1
  {
    if vp :| a0 <= vp < b && Needs(mem, d, a0, vp) && n == Cost(mem, d, a0, vp) + 1 {
      assert Stops(mem, d, a0, b, n, vp);
      OneStop(mem, d, a0, b, n, k, vp);
    }
  }

  /** The smallest case, from boot on: 66 free frames, of which setupkvm takes 65, and growth from
      nothing to one page.  allocuvm then reports success although nothing is mapped. */
  method LosesExample() returns (m: Memory, d: int, r: int, ghost lost: int)
    ensures fresh(m) && m.Valid() && m.IsDir(d)
    ensures r == 4096 && Flat(m.mem, d, 0) == 0 && m.free == []
    ensures 0 <= lost < |m.own| && m.own[lost].Other? && lost >= m.lo
  {
    hide Consistent, FreeOk, Flat, HasTable, Made, Grown, Part, Abandoned, Tabled, Kept;
    m := new Memory(seq(67, _ => ZeroPage()), 1);
    assert Pages(4096) == 1 && Pages(0) == 0;
    m.Freerange(4096, 67 * 4096);
    ghost var mem0, own0 := m.mem, m.own;
    ghost var e, k;
    d, e := m.Setupkvm(0x200);
    MadeEmpty(mem0, own0, m.mem, m.own, d, 0x200);
    ghost var mem1, own1, head1, free1 := m.mem, m.own, m.freelist, m.free;
    OnePage(mem1, d);
    r, k, lost := m.Allocuvm(d, 0, 4096);
    OneStop(mem1, d, 0, 1, 1, k, 0);
    FrameAbove(mem1, own1, head1, free1, m.lo, lost);
    NothingGrown(mem1, own1, m.mem, m.own, d, lost, Blank(1));
  }

  /** With no table yet, one frame is not enough for a page. */
  lemma OnePage(mem: Mem, d: int)
    requires !HasTable(mem, d, 0)
    ensures Stops(mem, d, 0, 1, 1, 0) && Cost(mem, d, 0, 0) == 0
  {
  }

  lemma NothingGrown(mem0: Mem, own0: Owners, mem: Mem, own: Owners, d: int, lost: int, want: seq<Want>)
    requires Grown(mem0, own0, mem, own, d, 0, 0, lost, want) && 0 <= d < |own0| && own0[d].Dir?
    ensures Flat(mem, d, 0) == Flat(mem0, d, 0)
  {
  }
}
