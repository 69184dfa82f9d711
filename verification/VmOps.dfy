/**
The physical page allocator and the page table code, over one memory: kalloc.c and vm.c.
*/
module VmOps {
  import opened VmSpace
  import opened VmFree
  import opened VmMap
  import opened VmGrow
  import opened VmDrop
  import opened VmCopy

  class Memory {
    var mem: Mem     // every frame's words
    var freelist: int          // frame of the first free page, 0 if none
    const lo: int              // frames below hold the kernel and are never given out
    ghost var own: Owners
    ghost var free: seq<int>   // the list, from its head

    /** Before kinit: no page has been given to the allocator. */
    constructor (pages: Mem, kernel: int)
      requires 0 < kernel && forall f :: 0 <= f < |pages| ==> |pages[f]| == ENTRIES
      ensures Valid() && mem == pages && lo == kernel && free == [] && |own| == |mem|
      ensures forall f :: 0 <= f < |own| ==> own[f].Other?
    {
      mem, freelist, lo := pages, 0, kernel;
      own, free := seq(|pages|, _ => Other), [];
    }

    /** Give the whole pages between two addresses to the allocator. */
    method Freerange(vstart: int, vend: int)
      requires Valid() && 0 <= vstart && |mem| == |own| && vend <= |mem| * 4096
      requires forall f :: Pages(vstart) <= f < vend / 4096 ==> lo <= f < |own| && own[f].Other?
      modifies this
      ensures Valid() && SameMaps(old(mem), old(own), mem) && |own| == |mem| == |old(own)|
      ensures forall f :: 0 <= f < |own| ==> own[f] == if Pages(vstart) <= f < vend / 4096 then Free else old(own)[f]
      ensures |free| == |old(free)| + if Pages(vstart) < vend / 4096 then vend / 4096 - Pages(vstart) else 0
    {
      hide FreeOk, Consistent, Flat;
      var p := Pages(vstart);
      ghost var own0, mem0 := own, mem;
      while (p + 1) * 4096 <= vend
        invariant Pages(vstart) <= p && Valid() && |own| == |mem| == |own0| == |mem0| && SameMaps(mem0, own0, mem)
        invariant (p <= vend / 4096 || p == Pages(vstart)) && |free| == |old(free)| + (p - Pages(vstart))
        invariant forall f :: 0 <= f < |own| ==> own[f] == if Pages(vstart) <= f < p then Free else own0[f]
        decreases vend - p * 4096
      {
        FreeLoose(p);
        p := p + 1;
      }
    }

    ghost predicate Valid()
      reads this
    {
      Consistent(mem, own) && FreeOk(mem, own, freelist, free, lo)
    }

    ghost predicate IsDir(d: int)
      reads this
    {
      0 <= d < |own| && own[d].Dir?
    }

    /** The head of the list, or 0 when memory is exhausted. */
    method Kalloc() returns (f: int)
      requires Valid()
      modifies this`freelist, this`own, this`free
      ensures Valid() && (f == 0 <==> old(free) == [])
      ensures f == 0 ==> own == old(own) && free == old(free)
      ensures f != 0 ==>
        0 < lo <= f < |mem| && old(own)[f].Free? && own == old(own)[f := Other] && free == old(free)[1..]
    {
      hide Consistent;
      f := freelist;
      if f != 0 {
        PopFree(mem, own, freelist, free, lo);
        freelist := mem[f][0];
        own, free := own[f := Other], free[1..];
      }
    }

    /** Push a page on the list.  Nothing is asked of the tables here: the caller may still be about
        to clear the entry that maps the page. */
    method Kfree(f: int)
      requires FreeOk(mem, own, freelist, free, lo) && lo <= f < |mem| && !own[f].Free?
      modifies this
      ensures FreeOk(mem, own, freelist, free, lo)
      ensures mem == old(mem)[f := Junk(old(freelist))] && own == old(own)[f := Free] && free == [f] + old(free)
      ensures mem[f][0] == old(freelist) && forall j :: 0 < j < 1024 ==> mem[f][j] == 0x01010101
    {
      PushFree(mem, own, freelist, free, lo, f);
      mem := mem[f := Junk(freelist)];
      freelist := f;
      own, free := own[f := Free], [f] + free;
    }

    /** The page table of virtual page vp in d, made if alloc says so; -1 if there is none. */
    method Walkpgdir(d: int, vp: int, alloc: bool) returns (t: int)
      requires Valid() && IsDir(d) && 0 <= vp < PAGES
      modifies this
      ensures Valid() && SameMaps(old(mem), old(own), mem) && |mem| == |old(mem)| == |own| == |old(own)|
      ensures Kept(old(mem), old(own), mem)
      ensures t == -1 <==> !HasTable(old(mem), d, vp / 1024) && (!alloc || old(free) == [])
      ensures t != -1 ==> HasTable(mem, d, vp / 1024) && mem[d][vp / 1024] == t * 4096 + 7
      ensures t != -1 ==> t == Frame(mem[d][vp / 1024])
      ensures t == -1 || HasTable(old(mem), d, vp / 1024) ==> mem == old(mem) && own == old(own) && free == old(free)
      ensures t != -1 && !HasTable(old(mem), d, vp / 1024) ==>
        && 0 <= t < |mem| && old(own)[t].Free? && own == old(own)[t := Table(d, vp / 1024)] && |free| == |old(free)| - 1
        && (forall e, k :: 0 <= e < |mem| && own[e].Dir? && 0 <= k < 1024 ==>
              (HasTable(mem, e, k) <==> HasTable(old(mem), e, k) || (e == d && k == vp / 1024)))
    {
      hide FreeOk, PdeOk, PteOk, OwnOk, Flat;
      var i := vp / 1024;
      if Present(mem[d][i]) {
        PdeAt(mem, own, d, i);
        return Frame(mem[d][i]);
      }
      if !alloc {
        return -1;
      }
      t := Kalloc();
      if t == 0 {
        return -1;
      }
      ghost var was, own0 := mem, own;
      var zeros := seq(ENTRIES, _ => 0);
      NewTable(mem, own, d, i, t, zeros);
      TableFree(mem, own, freelist, free, lo, d, i, t, zeros);
      mem := mem[t := zeros];
      mem := mem[d := mem[d][i := Pte(t, 6)]];
      own := own[t := Table(d, i)];
      TableAt(t);
    }

    /** One turn of mappages: map vp to frame f; nt is the new table, or -1. */
    method MapPage(d: int, vp: int, f: int, perm: int) returns (ok: bool, ghost nt: int)
      requires Valid() && IsDir(d) && 0 <= vp < PAGES && 0 <= perm < 4096 && !Present(Flat(mem, d, vp))
      requires vp < USERPAGES ==> lo <= f < |mem| && own[f].Other?
      modifies this
      ensures Valid() && |mem| == |old(mem)| && (ok <==> HasTable(old(mem), d, vp / 1024) || old(free) != [])
      ensures !ok ==> mem == old(mem) && own == old(own) && free == old(free)
      ensures ok ==> Mapped(old(mem), old(own), mem, d, vp, Pte(f, perm))
      ensures ok ==> AddsTable(old(mem), old(own), mem, d, vp / 1024)
      ensures ok ==> |free| == |old(free)| - if HasTable(old(mem), d, vp / 1024) then 0 else 1
      ensures Kept(old(mem), old(own), mem)
      ensures ok ==> Owned(old(own), own, d, vp, f, nt) && (nt == -1 <==> HasTable(old(mem), d, vp / 1024))
    {
      hide FreeOk, Consistent, Flat, HasTable, Present, Frame;
      Sizes(mem, own, freelist, free, lo);
      nt := -1;
      ghost var mem0, own0 := mem, own;
      var t := Walkpgdir(d, vp, true);
      if t == -1 {
        return false, nt;
      }
      Entry(d, vp);
      nt := if HasTable(mem0, d, vp / 1024) then -1 else t;
      ghost var mem1, own1 := mem, own;
      SetEntry(mem1, own1, freelist, free, lo, d, vp, f, perm);
      mem := mem[t := mem[t][vp % 1024 := Pte(f, perm)]];
      own := if vp < USERPAGES then own[f := Data(d, vp)] else own;
      SetMaps(mem0, own0, mem1, own1, d, vp, f, perm);
      ok := true;
    }

    lemma Entry(d: int, vp: int)
      requires Valid() && IsDir(d) && 0 <= vp < PAGES && HasTable(mem, d, vp / 1024)
      ensures d < |mem| && vp / 1024 < |mem[d]|
      ensures var t := Frame(mem[d][vp / 1024]); 0 <= t < |mem| && t < |own| && own[t].Table? && |mem[t]| == ENTRIES
    {
      PdeAt(mem, own, d, vp / 1024);
    }

    /** Map the pages that hold the size bytes from va on to consecutive frames from pa on.
        Pages up to m are mapped; it stops early exactly when memory for tables runs out. */
    method Mappages(d: int, va: int, size: int, pa: int, perm: int) returns (ok: bool, ghost m: int)
      requires Valid() && IsDir(d) && 0 <= va && 0 < size && va + size <= PAGES * 4096 && 0 <= pa && pa % 4096 == 0
      requires 0 <= perm < 4096
      requires forall vp :: va / 4096 <= vp <= (va + size - 1) / 4096 ==> !Present(Flat(mem, d, vp))
      requires Spare(own, lo, pa / 4096, va / 4096, (va + size - 1) / 4096 + 1)
      modifies this
      ensures Valid() && |mem| == |old(mem)| && va / 4096 <= m <= (va + size - 1) / 4096 + 1
      ensures (ok <==> m == (va + size - 1) / 4096 + 1)
      ensures Range(old(mem), old(own), mem, own, d, va / 4096, m, pa / 4096, perm) && Kept(old(mem), old(own), mem)
      ensures ok <==> |old(free)| >= NewTables(old(mem), d, va / 4096, (va + size - 1) / 4096 + 1)
      ensures |free| == if ok then |old(free)| - NewTables(old(mem), d, va / 4096, m) else 0
    {
      hide Consistent, FreeOk, Range, Spare, Present, Flat;
      ghost var mem0, own0, free0 := mem, own, free;
      var a := va / 4096;
      var last := (va + size - 1) / 4096;
      ghost var first := a;
      var f := pa / 4096;
      Sizes(mem, own, freelist, free, lo);
      RangeEmpty(mem, own, d, first, pa / 4096, perm);
      while true
        invariant first <= a <= last < PAGES && f == pa / 4096 + (a - first)
        invariant Valid() && |mem| == |mem0| == |own| && IsDir(d)
        invariant Range(mem0, own0, mem, own, d, first, a, pa / 4096, perm)
        invariant |free| == |free0| - NewTables(mem0, d, first, a) >= 0 && Kept(mem0, own0, mem)
        decreases last - a
      {
        RangeNext(mem0, own0, mem, own, d, first, a, pa / 4096, perm, lo, last);
        ghost var mem1, own1 := mem, own;
        ghost var nt;
        ok, nt := MapPage(d, a, f, perm);
        if !ok {
          MoreTables(mem0, d, first, a, last + 1);
          return false, a;
        }
        RangeStep(mem0, own0, mem1, own1, mem, own, d, first, a, pa / 4096, perm, nt, lo, last + 1);
        RangeKept(mem0, own0, mem1, own1, mem, d, first, a, pa / 4096, perm);
        if a == last {
          break;
        }
        a := a + 1;
        f := f + 1;
      }
      return true, last + 1;
    }

    /** Unmap and free the user pages from newsz up to oldsz, except those missed. */
    method Deallocuvm(d: int, oldsz: int, newsz: int) returns (r: int)
      requires Valid() && IsDir(d) && 0 <= oldsz <= KERNBASE && 0 <= newsz
      modifies this
      ensures Valid() && IsDir(d) && |mem| == |own| == |old(own)| == |old(mem)|
      ensures r == if newsz >= oldsz then oldsz else newsz
      ensures Freed(old(mem), old(own), mem, own, d, Pages(newsz),
                    if newsz >= oldsz then Pages(newsz) else Pages(oldsz))
      ensures newsz < oldsz ==>
        ((forall vp :: Pages(newsz) <= vp < Pages(oldsz) ==> !Present(Flat(mem, d, vp))) <==>
         (forall vp :: Pages(newsz) <= vp < Pages(oldsz) && Missed(old(mem), d, Pages(newsz), vp) ==>
            !Present(Flat(old(mem), d, vp))))
    {
      hide Consistent, FreeOk, Flat, HasTable, Freed, Going, Missed, Cleared;
      ghost var mem0, own0, a0 := mem, own, Pages(newsz);
      Sizes(mem, own, freelist, free, lo);
      FreedNone(mem, own, d, a0);
      if newsz >= oldsz {
        return oldsz;
      }
      var a := Pages(newsz);
      GoingAt(mem, d, a0);
      PagesOrder(newsz, oldsz);
      while a * 4096 < oldsz
        invariant Valid() && IsDir(d) && own0[d].Dir? && |mem| == |own| == |mem0| == |own0| && 0 <= a
        invariant Freed(mem0, own0, mem, own, d, a0, Lesser(a, Pages(oldsz))) && Going(mem0, d, a0, a)
        decreases oldsz - a * 4096
      {
        PagesAbove(a, oldsz);
        TablesSame(mem0, own0, mem, own, d, a0, a, a);
        NotMissed(mem0, d, a0, a);
        var t := Walkpgdir(d, a, false);
        if t == -1 {
          Jump(mem0, d, a0, a);
          FreedSkip(mem0, own0, mem, own, d, a0, a, Lesser(a + 1024, Pages(oldsz)));
          a := a + 1023;
        } else {
          GoOn(mem0, d, a0, a);
          Entry(d, a);
          ClearOne(d, a, t, mem0, own0, a0);
        }
        a := a + 1;
      }
      PagesBelow(a, oldsz);
      PagesTop(oldsz);
      UnmapsAll(mem0, own0, mem, own, d, a0, Pages(oldsz));
      r := newsz;
    }

    /** One turn of deallocuvm where there is a table. */
    method ClearOne(d: int, a: int, t: int, ghost mem0: Mem, ghost own0: Owners, ghost a0: int)
      requires Valid() && IsDir(d) && 0 <= a0 <= a < USERPAGES && |mem| == |own| == |own0| && own0[d].Dir?
      requires HasTable(mem, d, a / 1024) && t == Frame(mem[d][a / 1024]) && 0 <= t < |mem| && |mem[t]| == ENTRIES
      requires Freed(mem0, own0, mem, own, d, a0, a) && !Missed(mem0, d, a0, a)
      modifies this
      ensures Valid() && IsDir(d) && |mem| == |own| == |old(own)|
      ensures Freed(mem0, own0, mem, own, d, a0, a + 1)
    {
      hide Consistent, FreeOk, Flat, HasTable, Freed, Missed, Cleared;
      EntryIs(mem, d, a);
      PdeAt(mem, own, d, a / 1024);
      if Present(mem[t][a % 1024]) {
        var f := Frame(mem[t][a % 1024]);
        FreedOne(mem0, own0, mem, own, d, a0, a, Junk(freelist));
        FrameAbove(mem, own, freelist, free, lo, f);
        Kfree(f);
        ghost var mem1 := mem;
        mem := mem[t := mem[t][a % 1024 := 0]];
        EntryFree(mem1, own, freelist, free, lo, t, mem[t]);
      } else {
        FreedNothing(mem0, own0, mem, own, d, a0, a);
      }
    }

    /** d's user mappings lie below page n. */
    ghost predicate Ends(d: int, n: int)
      reads this
    {
      forall vp :: n <= vp < USERPAGES ==> Flat(mem, d, vp) == 0
    }

    /** Grow the address space d from oldsz to newsz bytes.  k is how far pages were mapped, and lost
        is a frame that is in no list and no table afterwards, or -1: allocuvm does not look at
        the result of mappages. */
    method Allocuvm(d: int, oldsz: int, newsz: int) returns (r: int, ghost k: int, ghost lost: int)
      requires Valid() && IsDir(d) && 0 <= oldsz && 0 <= newsz && Ends(d, Pages(oldsz))
      modifies this
      ensures Valid() && IsDir(d)
      ensures newsz >= KERNBASE ==> r == 0 && mem == old(mem) && own == old(own)
      ensures newsz < KERNBASE && newsz < oldsz ==> r == oldsz && mem == old(mem) && own == old(own)
      ensures oldsz <= newsz < KERNBASE ==>
        && Stops(old(mem), d, Pages(oldsz), Pages(newsz), |old(free)|, k)
        && (lost != -1 <==> k < Pages(newsz) && |old(free)| == Cost(old(mem), d, Pages(oldsz), k) + 1)
        && r == (if k == Pages(newsz) || (lost != -1 && k + 1 == Pages(newsz)) then newsz else 0)
        && (if r == newsz then Grown(old(mem), old(own), mem, own, d, Pages(oldsz), k, lost, Blank(Pages(newsz)))
            else Undone(old(mem), old(own), mem, own, d, lost))
        && (lost != -1 ==> 0 <= lost < |own| == |old(own)| && old(own)[lost].Free? && own[lost].Other?)
        && (r == newsz ==> |free| == if lost != -1 then 0 else |old(free)| - Cost(old(mem), d, Pages(oldsz), k))
        && (r == newsz && Lead(old(mem), d, Pages(oldsz)) == Pages(oldsz) ==>
              (Lead(mem, d, Pages(newsz)) == Pages(newsz) <==> lost == -1))
    {
      hide Consistent, FreeOk, Flat, HasTable, Freed, Grown, Range, Kept, Fetched, Needs, Spare, Undone, OwnGrown, Lead;
      k, lost := 0, -1;
      if newsz >= KERNBASE {
        return 0, k, lost;
      }
      if newsz < oldsz {
        return oldsz, k, lost;
      }
      ghost var mem0, own0, a0 := mem, own, Pages(oldsz);
      Sizes(mem, own, freelist, free, lo);
      PagesOrder(oldsz, newsz);
      ghost var want := Blank(Pages(newsz));
      GrowNone(mem, own, d, a0, want);
      var a := Pages(oldsz);
      k := a;
      while a * 4096 < newsz
        invariant 0 <= a0 <= k <= a <= Pages(newsz) && Valid() && |own| == |own0| == |mem| == |mem0| && IsDir(d)
        invariant Grown(mem0, own0, mem, own, d, a0, k, lost, want)
        invariant lost == -1 ==> k == a && |free| == |old(free)| - Cost(mem0, d, a0, a)
        invariant lost != -1 ==>
          && k == a - 1 && free == [] && |old(free)| == Cost(mem0, d, a0, k) + 1 < Cost(mem0, d, a0, k + 1)
          && 0 <= lost < |own| && own0[lost].Free? && own[lost].Other?
        decreases Pages(newsz) - a
      {
        PagesAbove(a, newsz);
        ghost var own1, free1 := own, free;
        var f := Kalloc();
        if f == 0 {
          ghost var mem1 := mem;
          var _ := Deallocuvm(d, newsz, oldsz);
          RolledBack(mem0, own0, mem1, own1, mem, own, d, a0, k, lost, Pages(newsz), want);
          UndoneAll(mem0, own0, mem, own, d, a0, lost);
          LostStays(mem1, own1, mem, own, d, a0, Pages(newsz), lost);
          return 0, k, lost;
        }
        var ignored;
        FreeBefore(mem0, own0, mem, own1, d, a0, k, f, want);
        ignored, k, lost := AddPage(d, a, f, Want(6, ZeroPage()), mem0, own0, own1, |free1|, a0, want);
        a := a + 1;
      }
      PagesBelow(a, newsz);
      PagesTop(newsz);
      if Lead(mem0, d, a0) == a0 {
        GrownLead(mem0, own0, mem, own, d, a0, k, Pages(newsz), lost, want);
      }
      r := newsz;
    }

    /** A page f in hand is filled and mapped; ok is what mappages returns. */
    method AddPage(d: int, a: int, f: int, x: Want, ghost mem0: Mem, ghost own0: Owners, ghost own1: Owners,
                   ghost n: int, ghost a0: int, ghost want: seq<Want>)
      returns (ok: bool, ghost k: int, ghost lost: int)
      requires Valid() && IsDir(d) && 0 < lo <= f < |mem| && |own0| == |own1| == |own| == |mem| && own1[f].Free?
      requires own == own1[f := Other] && |free| == n - 1
      requires Consistent(mem, own1) && Grown(mem0, own0, mem, own1, d, a0, a, -1, want) && own0[d].Dir?
      requires 0 <= a0 <= a < USERPAGES && Flat(mem0, d, a) == 0 && a < |want| && want[a] == x && Sane(x)
      modifies this
      ensures Valid() && IsDir(d) && |own| == |mem| == |old(own)|
      ensures Grown(mem0, own0, mem, own, d, a0, k, lost, want) && (ok <==> lost == -1)
      ensures ok ==> k == a + 1 && |free| == n - (Cost(mem0, d, a0, a + 1) - Cost(mem0, d, a0, a))
      ensures !ok ==> k == a && n == 1 && free == [] && Cost(mem0, d, a0, a + 1) == Cost(mem0, d, a0, a) + 2
      ensures !ok ==> lost == f && own[f].Other?
    {
      hide Consistent, FreeOk, Flat, HasTable, Grown, Range, Kept, Needs, OwnGrown;
      ghost var memA := mem;
      EntryFree(mem, own, freelist, free, lo, f, x.page);
      mem := mem[f := x.page];
      FetchMaps(own0, own1, memA, mem, own, f, x);
      FetchNeeds(mem0, own0, memA, own1, mem, own, d, a0, a, f, x, want);
      ghost var memB, ownB := mem, own;
      ghost var m;
      ok, m := Mappages(d, a * 4096, 4096, f * 4096, x.perm);
      AddedDir(memB, ownB, mem, own, d, a, m, f, x);
      if ok {
        GrowStep(mem0, own0, memA, own1, memB, ownB, mem, own, d, a0, a, f, x, want);
        k, lost := a + 1, -1;
      } else {
        GrowLost(mem0, own0, memA, own1, memB, ownB, mem, own, d, a0, a, f, x, want);
        k, lost := a, f;
      }
    }

    /** Free the address space d: its pages, its tables and its directory, each once. */
    method Freevm(d: int)
      requires Valid() && IsDir(d)
      modifies this
      ensures Valid() && Gone(old(mem), old(own), mem, own, d)
    {
      hide Consistent, FreeOk, Flat, HasTable, Freed, Dropped, Gone;
      ghost var mem0, own0 := mem, own;
      var _ := Deallocuvm(d, KERNBASE, 0);
      ghost var mem1, own1, head1, free1 := mem, own, freelist, free;
      NoData(mem0, own0, mem1, own1, d);
      LetGo(mem, own, d);
      LetGoFree(mem, own, d, freelist, free, lo);
      own := DropAll(own, d);
      var i := 0;
      while i < ENTRIES
        invariant 0 <= i <= ENTRIES && Valid() && |mem| == |own| == |mem1| == |own1| && mem[d] == mem1[d]
        invariant Dropped(own1, own, d, i) && SameMaps(mem1, own, mem) && Kept(mem1, own1, mem)
      {
        DropNext(mem1, own1, own, d, i);
        DirPage(mem1, own1, d);
        if Present(mem[d][i]) {
          var t := Frame(mem[d][i]);
          TableAbove(mem1, own1, head1, free1, lo, d, i);
          FreeLoose(t);
        }
        i := i + 1;
      }
      FrameAbove(mem1, own1, head1, free1, lo, d);
      DroppedDir(own1, own, d);
      ghost var own2 := own;
      FreeLoose(d);
      AllGone(mem0, own0, mem1, own1, mem, own2, d);
    }

    /** kfree of a page that no entry refers to. */
    method FreeLoose(f: int)
      requires Valid() && 0 <= f < |mem| && |mem| == |own| && own[f].Other? && lo <= f
      modifies this
      ensures Valid() && mem == old(mem)[f := Junk(old(freelist))] && own == old(own)[f := Free]
      ensures free == [f] + old(free)
      ensures SameMaps(old(mem), old(own), mem)
    {
      hide FreeOk, Flat;
      LooseOwner(mem, own, f, Junk(freelist), Free);
      Kfree(f);
    }

    /** A new address space with the kernel's mappings; 0 if memory runs out, and then the directory e
        and the tables taken so far, which were all the free frames, are not given back. */
    method Setupkvm(data: int) returns (d: int, ghost e: int)
      requires Valid() && DataOk(data)
      modifies this
      ensures Valid() && (d == 0 || d == e) && |own| == |old(own)|
      ensures d != 0 <==> |old(free)| >= KERNEL_FRAMES
      ensures d != 0 ==> Made(old(mem), old(own), mem, own, d, data, 4) && Tabled(mem, d, data, 4)
      ensures |free| == if d != 0 then |old(free)| - KERNEL_FRAMES else 0
      ensures d == 0 ==> Abandoned(old(mem), old(own), mem, own, e)
    {
      hide Consistent, FreeOk, Flat, HasTable, Made, Abandoned, Range, Kept, Part, Kmaps, SizeOf, Tabled, NewTables;
      ghost var mem0, own0, n := mem, own, |free|;
      Sizes(mem, own, freelist, free, lo);
      NothingMade(mem, own);
      d := Kalloc();
      e := if d == 0 then -1 else d;
      if d == 0 {
        return;
      }
      MadeFirst(mem0, own0, d, data);
      DirFree(mem, own, freelist, free, lo, d);
      mem := mem[d := ZeroPage()];
      own := own[d := Dir];
      TabledFirst(mem, d, data);
      var j := 0;
      while j < 4
        invariant 0 <= j <= 4 && Valid() && Made(mem0, own0, mem, own, d, data, j) && d != 0
        invariant Tabled(mem, d, data, j) && |free| == n - 1 - TablesBy(data, j)
      {
        KmapPages(data, j);
        KernelCost(mem, d, data, j);
        MadeReady(mem0, own0, mem, own, d, data, j, lo);
        var k := Kmaps(data)[j];
        ghost var mem1, own1 := mem, own;
        var ok;
        ghost var m;
        ok, m := Mappages(d, k.virt, SizeOf(k), k.physStart, k.perm);
        if !ok {
          MadeFails(mem0, own0, mem1, own1, mem, own, d, data, j, m);
          AbandonedSize(mem0, own0, mem, own, d);
          return 0, d;
        }
        MadeNext(mem0, own0, mem1, own1, mem, own, d, data, j);
        TabledNext(mem1, own1, mem, own, d, data, j);
        j := j + 1;
      }
      MadeSize(mem0, own0, mem, own, d, data);
    }

    /** A copy of the first sz bytes of address space p.  It panics at the first page that is not mapped,
        if memory lasts until there; d is 0 if memory runs out.  Then everything is given back, but for
        the page in hand when a table could not be made, and for the directory e and its tables when
        setupkvm failed. */
    method Copyuvm(p: int, sz: int, data: int) returns (d: int, panic: bool, ghost lost: int, ghost e: int)
      requires Valid() && IsDir(p) && 0 <= sz <= KERNBASE && DataOk(data)
      modifies this
      ensures Valid()
      ensures var m, left := Lead(old(mem), p, Pages(sz)), |old(free)| - KERNEL_FRAMES;
        && (panic <==> m < Pages(sz) && left >= CopyCost(m))
        && (d != 0 <==> m == Pages(sz) && left >= CopyCost(m))
        && (lost != -1 <==> left >= 0 && LosesPage(left, m))
      ensures d != 0 ==> Copied(old(mem), old(own), mem, own, p, d, Pages(sz), data)
      ensures |old(free)| < KERNEL_FRAMES ==> Abandoned(old(mem), old(own), mem, own, e) && free == []
      ensures d == 0 && !panic && |old(free)| >= KERNEL_FRAMES ==> NotCopied(old(mem), old(own), mem, own, lost)
      ensures lost != -1 ==> 0 <= lost < |own| == |old(own)| && old(own)[lost].Free? && own[lost].Other?
    {
      hide Consistent, FreeOk, Flat, HasTable, Made, Abandoned, NotCopied, Copied, Grown, Gone, Frame, KernelPte,
           Tabled, CopyCost, LosesPage, Cost, Lead;
      lost, panic := -1, false;
      ghost var mem0, own0, n := mem, own, Pages(sz);
      ghost var m := Lead(mem, p, n);
      PagesOrder(0, sz);
      LeadIs(mem, p, n);
      CopyCostPositive(m);
      Sizes(mem, own, freelist, free, lo);
      d, e := Setupkvm(data);
      if d == 0 {
        return;
      }
      ghost var mem1, own1, left := mem, own, |free|;
      MadeUser(mem0, own0, mem, own, p, d, data);
      ghost var want := Copies(mem, p, n);
      GrowNone(mem, own, d, 0, want);
      var i := 0;
      while i * 4096 < sz
        invariant 0 <= i <= m && Valid() && |own| == |own0| == |mem| == |own1| == |mem1| && IsDir(d) && d != 0
        invariant Grown(mem1, own1, mem, own, d, 0, i, -1, want) && lost == -1 && !panic
        invariant |free| == left - CopyCost(i)
      {
        PagesAbove(i, sz);
        ParentSame(mem1, own1, mem, own, p, d, i, want);
        var t := Walkpgdir(p, i, false);
        if t == -1 {
          Unmapped(mem, p, i);
          EnoughLosesNone(left, m);
          return 0, true, lost, e;
        }
        Entry(p, i);
        EntryIs(mem, p, i);
        var pte := mem[t][i % 1024];
        if !Present(pte) {
          EnoughLosesNone(left, m);
          return 0, true, lost, e;
        }
        ParentPage(mem1, own1, mem, own, p, d, i, n);
        UserCost(mem1, d, data, i);
        UserCost(mem1, d, data, i + 1);
        var pa, flags := Frame(pte), pte % 4096;
        var ok := false;
        ghost var own2, n2, k := own, |free|, i;
        var f := Kalloc();
        if f != 0 {
          FreeBefore(mem1, own1, mem, own2, d, 0, i, f, want);
          ok, k, lost := AddPage(d, i, f, Want(flags, mem[pa]), mem1, own1, own2, n2, 0, want);
        }
        if !ok {
          ghost var mem2, own3 := mem, own;
          StopsAt(i, m, left, f != 0);
          Freevm(d);
          CopyUndone(mem0, own0, mem1, own1, mem2, own3, mem, own, d, data, k, lost, want);
          return 0, false, lost, e;
        }
        i := i + 1;
      }
      PagesBelow(i, sz);
      EnoughLosesNone(left, m);
      CopyWhole(mem0, own0, mem1, own1, mem, own, p, d, n, data);
    }
  }
}
