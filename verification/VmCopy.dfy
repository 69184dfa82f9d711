/**
New address spaces: the kernel's mappings (setupkvm) and copies (copyuvm).
*/
module VmCopy {
  import opened VmSpace
  import opened VmMap
  import opened VmGrow
  import opened VmDrop

  // ---------------------------------------------------------------- the kernel part

  /** struct kmap, in bytes; the last entry ends at 2^32, written 0. */
  datatype Kmap = Kmap(virt: int, physStart: int, physEnd: int, perm: int)

  /** kmap[], with the page where the kernel's data starts as a parameter. */
  function Kmaps(data: int): (ks: seq<Kmap>)
    ensures |ks| == 4
  {
    [Kmap(0x8000_0000, 0, 0x10_0000, 2),
     Kmap(0x8010_0000, 0x10_0000, data * 4096, 0),
     Kmap(0x8000_0000 + data * 4096, data * 4096, 0xE00_0000, 2),
     Kmap(0xFE00_0000, 0xFE00_0000, 0, 2)]
  }

  /** phys_end - phys_start, in 32-bit arithmetic. */
  function SizeOf(k: Kmap): int
  {
    (k.physEnd - k.physStart) % 0x1_0000_0000
  }

  /** The kernel's text is not empty and its data lies below PHYSTOP. */
  predicate DataOk(data: int)
  {
    0x100 < data < 0xE000
  }

  /** What the kernel promises to map at vp: physical memory from KERNBASE on, text read-only, and
      the devices at the top. */
  function KernelPte(data: int, vp: int): int
  {
    if 0x80000 <= vp < 0x80100 then Pte(vp - 0x80000, 2)
    else if 0x80100 <= vp < 0x80000 + data then Pte(vp - 0x80000, 0)
    else if 0x80000 + data <= vp < 0x8E000 then Pte(vp - 0x80000, 2)
    else if 0xFE000 <= vp < PAGES then Pte(vp, 2)
    else 0
  }

  /** The pages of entry j. */
  function FirstPage(data: int, j: int): int
  {
    if j == 0 then 0x80000 else if j == 1 then 0x80100 else if j == 2 then 0x80000 + data else 0xFE000
  }

  function EndPage(data: int, j: int): int
  {
    if j == 0 then 0x80100 else if j == 1 then 0x80000 + data else if j == 2 then 0x8E000 else PAGES
  }

  function FirstFrame(data: int, j: int): int
  {
    if j == 0 then 0 else if j == 1 then 0x100 else if j == 2 then data else 0xFE000
  }

  lemma KmapPages(data: int, j: int)
    requires DataOk(data) && 0 <= j < 4
    ensures var k := Kmaps(data)[j];
      && 0 <= k.virt && 0 < SizeOf(k) && k.virt + SizeOf(k) <= PAGES * 4096
      && 0 <= k.physStart && k.physStart % 4096 == 0
      && k.virt / 4096 == FirstPage(data, j) && (k.virt + SizeOf(k) - 1) / 4096 + 1 == EndPage(data, j)
      && k.physStart / 4096 == FirstFrame(data, j) && 0 <= k.perm < 4096
    ensures USERPAGES <= FirstPage(data, j) < EndPage(data, j) <= PAGES
  {
  }

  /** The mapping after the first j entries of kmap. */
  function Part(data: int, j: int, vp: int): int
  {
    if j > 0 && 0x80000 <= vp < 0x80100 then Pte(vp - 0x80000, 2)
    else if j > 1 && 0x80100 <= vp < 0x80000 + data then Pte(vp - 0x80000, 0)
    else if j > 2 && 0x80000 + data <= vp < 0x8E000 then Pte(vp - 0x80000, 2)
    else if j > 3 && 0xFE000 <= vp < PAGES then Pte(vp, 2)
    else 0
  }

  lemma PartNext(data: int, j: int, vp: int)
    requires DataOk(data) && 0 <= j < 4
    ensures FirstPage(data, j) <= vp < EndPage(data, j) ==>
      Part(data, j, vp) == 0
      && Part(data, j + 1, vp) == Pte(FirstFrame(data, j) + (vp - FirstPage(data, j)), Kmaps(data)[j].perm)
    ensures !(FirstPage(data, j) <= vp < EndPage(data, j)) ==> Part(data, j + 1, vp) == Part(data, j, vp)
  {
    hide Pte;
  }

  lemma PartAll(data: int, vp: int)
    ensures Part(data, 4, vp) == KernelPte(data, vp)
  {
    hide Pte;
  }

  /** What happens to the owner of a frame while d is made. */
  predicate OwnMade(o: Owner, o': Owner, d: int, g: int)
  {
    if o.Free? then o'.Free? || (o'.Dir? && g == d) || (o'.Table? && o'.dir == d) else o' == o
  }

  /** d is a new address space whose flat map is the first j entries of kmap; all else is as before. */
  ghost predicate Made(mem0: Mem, own0: Owners, mem: Mem, own: Owners, d: int, data: int, j: int)
  {
    && |own| == |own0| == |mem| == |mem0| && 0 <= d < |own0| && own0[d].Free? && own[d].Dir?
    && SameMaps(mem0, own0, mem) && Kept(mem0, own0, mem)
    && (forall vp :: 0 <= vp < PAGES ==> Flat(mem, d, vp) == Part(data, j, vp))
    && (forall g :: 0 <= g < |own0| ==> OwnMade(own0[g], own[g], d, g))
  }

  /** A zeroed page, fresh from kalloc, becomes a directory. */
  lemma NewDir(mem: Mem, own: Owners, d: int)
    requires Consistent(mem, own) && 0 <= d < |mem| && own[d].Other? && mem[d] == ZeroPage()
    ensures Consistent(mem, own[d := Dir]) && forall vp :: 0 <= vp < PAGES ==> Flat(mem, d, vp) == 0
  {
    var own' := own[d := Dir];
    forall e, i | 0 <= e < |mem| && own'[e].Dir? && 0 <= i < 1024 ensures PdeOk(mem, own', e, i) {
      if e != d { assert PdeOk(mem, own, e, i); }
    }
    forall t, j | 0 <= t < |mem| && own'[t].Table? && own'[t].i < 512 && 0 <= j < 1024 ensures PteOk(mem, own', t, j) {
      assert PteOk(mem, own, t, j);
    }
    forall g | 0 <= g < |mem| ensures OwnOk(mem, own', g) {
      assert OwnOk(mem, own, g);
    }
  }

  lemma MadeFirst(mem0: Mem, own0: Owners, d: int, data: int)
    requires Consistent(mem0, own0) && 0 <= d < |mem0| && own0[d].Free?
    ensures var mem, own := mem0[d := ZeroPage()], own0[d := Other][d := Dir];
      Consistent(mem, own) && Made(mem0, own0, mem, own, d, data, 0)
  {
    hide Flat, PdeOk, PteOk, OwnOk;
    LooseOwner(mem0, own0, d, ZeroPage(), Other);
    NewDir(mem0[d := ZeroPage()], own0[d := Other], d);
  }

  /** One more entry of kmap is mapped. */
  lemma MadeNext(mem0: Mem, own0: Owners, mem: Mem, own: Owners, mem2: Mem, own2: Owners, d: int, data: int, j: int)
    requires DataOk(data) && 0 <= j < 4 && Made(mem0, own0, mem, own, d, data, j)
    requires Range(mem, own, mem2, own2, d, FirstPage(data, j), EndPage(data, j), FirstFrame(data, j),
                   Kmaps(data)[j].perm)
    requires Kept(mem, own, mem2)
    ensures Made(mem0, own0, mem2, own2, d, data, j + 1)
  {
    hide Flat, Pte, HasTable, Kmaps, Part;
    KmapPages(data, j);
    forall vp | 0 <= vp < PAGES ensures Flat(mem2, d, vp) == Part(data, j + 1, vp) {
      PartNext(data, j, vp);
    }
    forall g | 0 <= g < |own0| ensures OwnMade(own0[g], own2[g], d, g) {
      assert OwnMade(own0[g], own[g], d, g) &&
             OwnRange(own[g], own2[g], d, FirstPage(data, j), EndPage(data, j), FirstFrame(data, j), g);
    }
    assert own2[d].Dir? by {
      assert OwnRange(own[d], own2[d], d, FirstPage(data, j), EndPage(data, j), FirstFrame(data, j), d);
    }
  }

  /** setupkvm gives up: the directory e it took, with its tables, is lost; all else is as before. */
  ghost predicate Abandoned(mem0: Mem, own0: Owners, mem: Mem, own: Owners, e: int)
  {
    && |own| == |own0| == |mem| == |mem0| && SameMaps(mem0, own0, mem) && Kept(mem0, own0, mem)
    && (forall g :: 0 <= g < |own0| ==> OwnMade(own0[g], own[g], e, g))
  }

  lemma MadeFails(mem0: Mem, own0: Owners, mem: Mem, own: Owners, mem2: Mem, own2: Owners, d: int, data: int, j: int,
                  m: int)
    requires DataOk(data) && 0 <= j < 4 && Made(mem0, own0, mem, own, d, data, j)
    requires Range(mem, own, mem2, own2, d, FirstPage(data, j), m, FirstFrame(data, j), Kmaps(data)[j].perm)
    requires Kept(mem, own, mem2)
    ensures Abandoned(mem0, own0, mem2, own2, d)
  {
    hide Flat, Pte, HasTable, Kmaps, Part;
    forall g | 0 <= g < |own0| ensures OwnMade(own0[g], own2[g], d, g) {
      assert OwnMade(own0[g], own[g], d, g) &&
             OwnRange(own[g], own2[g], d, FirstPage(data, j), m, FirstFrame(data, j), g);
    }
  }

  // ---------------------------------------------------------------- what the kernel part costs

  /** Frames that the kernel part of an address space takes: the directory, 56 tables for the memory
      below PHYSTOP and 8 for the devices. */
  const KERNEL_FRAMES := 65

  /** Tables after the first j entries of kmap. */
  function TablesBy(data: int, j: int): int
  {
    if j <= 0 then 0 else if j == 1 then 1 else if j == 2 then (data - 1) / 1024 + 1 else if j == 3 then 56 else 64
  }

  predicate KernelTable(data: int, j: int, k: int)
  {
    512 <= k < 512 + TablesBy(data, if j <= 3 then j else 3) || (j > 3 && 1016 <= k < 1024)
  }

  /** d has the tables that the first j entries of kmap need, and no others. */
  ghost predicate Tabled(mem: Mem, d: int, data: int, j: int)
  {
    forall k :: 0 <= k < 1024 ==> (HasTable(mem, d, k) <==> KernelTable(data, j, k))
  }

  lemma TabledFirst(mem: Mem, d: int, data: int)
    requires 0 <= d < |mem| && mem[d] == ZeroPage()
    ensures Tabled(mem, d, data, 0)
  {
  }

  lemma TabledNext(mem: Mem, own: Owners, mem2: Mem, own2: Owners, d: int, data: int, j: int)
    requires DataOk(data) && 0 <= j < 4 && Tabled(mem, d, data, j) && 0 <= d < |own| && own[d].Dir?
    requires Range(mem, own, mem2, own2, d, FirstPage(data, j), EndPage(data, j), FirstFrame(data, j),
                   Kmaps(data)[j].perm)
    ensures Tabled(mem2, d, data, j + 1)
  {
    hide Flat, HasTable, Kmaps, Pte, OwnRange;
    forall k | 0 <= k < 1024 ensures HasTable(mem2, d, k) <==> KernelTable(data, j + 1, k) {
      assert HasTable(mem, d, k) <==> KernelTable(data, j, k);
    }
  }

  lemma KernelCost(mem: Mem, d: int, data: int, j: int)
    requires DataOk(data) && 0 <= j < 4 && Tabled(mem, d, data, j)
    ensures NewTables(mem, d, FirstPage(data, j), EndPage(data, j)) == TablesBy(data, j + 1) - TablesBy(data, j)
    ensures TablesBy(data, j) <= TablesBy(data, j + 1) <= KERNEL_FRAMES - 1
  {
    hide HasTable;
    TablesCount(mem, d, FirstPage(data, j), EndPage(data, j));
  }

  /** Frames that copying n pages into a new address space takes: the pages, and a table for each 1024. */
  function CopyCost(n: int): int
  {
    n + (n + 1023) / 1024
  }

  lemma CopyCostPositive(n: int)
    requires 0 <= n
    ensures CopyCost(0) == 0 <= CopyCost(n)
  {
  }

  lemma UserCost(mem: Mem, d: int, data: int, n: int)
    requires DataOk(data) && Tabled(mem, d, data, 4) && 0 <= n <= USERPAGES
    ensures Cost(mem, d, 0, n) == CopyCost(n)
  {
    hide HasTable;
    if n > 0 {
      TablesCount(mem, d, 0, n);
    }
  }

  lemma CopyCostGrows(i: int, n: int)
    requires 0 <= i < n
    ensures CopyCost(i) < CopyCost(i + 1) <= CopyCost(n)
    ensures CopyCost(i + 1) == CopyCost(i) + if i % 1024 == 0 then 2 else 1
  {
  }

  /** With n frames left after the kernel part, copyuvm runs out between a page and its table. */
  ghost predicate LosesPage(n: int, pages: int)
  {
    exists vp :: FirstOfTable(vp) && 0 <= vp < pages && n == CopyCost(vp) + 1
  }

  predicate FirstOfTable(vp: int)
  {
    vp % 1024 == 0
  }

  /** Whether the page in hand is lost, when copyuvm stops at page i. */
  lemma StopsAt(i: int, pages: int, n: int, inHand: bool)
    requires 0 <= i < pages && (if inHand then n == CopyCost(i) + 1 < CopyCost(i + 1) else n == CopyCost(i))
    ensures LosesPage(n, pages) <==> inHand
    ensures n < CopyCost(pages)
  {
    CopyCostGrows(i, pages);
    if inHand {
      assert FirstOfTable(i);
    } else if LosesPage(n, pages) {
      var vp :| FirstOfTable(vp) && 0 <= vp < pages && n == CopyCost(vp) + 1;
      CopyCostGrows(vp, pages);
      if vp < i {
        CopyCostGrows(vp, i);
      } else if i < vp {
        CopyCostGrows(i, vp);
      }
    }
  }

  /** A copy that is made loses nothing. */
  lemma EnoughLosesNone(n: int, pages: int)
    requires n >= CopyCost(pages)
    ensures !LosesPage(n, pages)
  {
    forall vp | FirstOfTable(vp) && 0 <= vp < pages ensures n != CopyCost(vp) + 1 {
      CopyCostGrows(vp, pages);
    }
  }

  // ---------------------------------------------------------------- copies

  /** The pages of p below n, as they are to be in the copy. */
  ghost function Copies(mem: Mem, p: int, n: int): (want: seq<Want>)
    requires n >= 0
    ensures |want| == n
  {
    seq(n, vp requires 0 <= vp < n => CopyOf(mem, Flat(mem, p, vp)))
  }

  /** The flags and contents of the page that entry w refers to. */
  ghost function CopyOf(mem: Mem, w: int): Want
  {
    Want(w % 4096, if 0 <= Frame(w) < |mem| then mem[Frame(w)] else [])
  }

  /** Copying pages into d leaves p's map alone. */
  lemma ParentSame(mem0: Mem, own0: Owners, mem: Mem, own: Owners, p: int, d: int, vp: int, want: seq<Want>)
    requires Grown(mem0, own0, mem, own, d, 0, vp, -1, want)
    requires 0 <= p < |own0| && own0[p].Dir? && p != d && 0 <= vp < PAGES
    ensures own[p].Dir? && Flat(mem, p, vp) == Flat(mem0, p, vp)
  {
    hide Flat, HasTable, NewPage;
    GrownDir(mem0, own0, mem, own, d, 0, vp, -1, p, want);
  }

  /** The parent's page vp, as copyuvm finds it after copying the pages before. */
  lemma ParentPage(mem0: Mem, own0: Owners, mem: Mem, own: Owners, p: int, d: int, vp: int, n: int)
    requires n >= 0 && Consistent(mem0, own0) && Consistent(mem, own)
    requires Grown(mem0, own0, mem, own, d, 0, vp, -1, Copies(mem0, p, n))
    requires 0 <= p < |own0| && own0[p].Dir? && p != d && 0 <= vp < n <= USERPAGES && Present(Flat(mem0, p, vp))
    ensures own[p].Dir? && HasTable(mem, p, vp / 1024) && Flat(mem, p, vp) == Flat(mem0, p, vp)
    ensures var w := Flat(mem, p, vp);
      0 <= Frame(w) < |mem| && Copies(mem0, p, n)[vp] == Want(w % 4096, mem[Frame(w)]) && Sane(Copies(mem0, p, n)[vp])
  {
    hide Flat, HasTable, NewPage, Present, Pte;
    GrownDir(mem0, own0, mem, own, d, 0, vp, -1, p, Copies(mem0, p, n));
    var t0, f0 := MappedAt(mem0, own0, p, vp);
    var t, f := MappedAt(mem, own, p, vp);
  }

  /** d is a copy of p's pages below n: the same flags and the same contents in other frames; p, every
      other address space and every page in use are as before. */
  ghost predicate Copied(mem0: Mem, own0: Owners, mem: Mem, own: Owners, p: int, d: int, n: int, data: int)
  {
    && |own| == |own0| == |mem| == |mem0| && 0 <= d < |own0| && own0[d].Free? && own[d].Dir?
    && SameMaps(mem0, own0, mem) && Kept(mem0, own0, mem)
    && (forall vp :: 0 <= vp < n ==> SamePage(mem0, own0, mem, p, d, vp))
    && (forall vp :: n <= vp < PAGES ==> Flat(mem, d, vp) == KernelPte(data, vp))
  }

  ghost predicate SamePage(mem0: Mem, own0: Owners, mem: Mem, p: int, d: int, vp: int)
  {
    var w, w' := Flat(mem0, p, vp), Flat(mem, d, vp);
    && Present(w') && w' % 4096 == w % 4096 && 0 <= Frame(w) < |mem0| && 0 <= Frame(w') < |own0|
    && |mem| == |own0| && own0[Frame(w')].Free? && mem[Frame(w')] == mem0[Frame(w)]
  }

  /** From the new address space, grown by the copies, to the whole. */
  lemma CopyWhole(mem0: Mem, own0: Owners, mem1: Mem, own1: Owners, mem: Mem, own: Owners, p: int, d: int, n: int,
                  data: int)
    requires n >= 0 && Consistent(mem0, own0) && Consistent(mem1, own1)
    requires Made(mem0, own0, mem1, own1, d, data, 4) && Grown(mem1, own1, mem, own, d, 0, n, -1, Copies(mem1, p, n))
    requires 0 <= p < |own0| && own0[p].Dir? && 0 <= n <= USERPAGES
    requires forall vp :: 0 <= vp < n ==> Present(Flat(mem0, p, vp))
    ensures Copied(mem0, own0, mem, own, p, d, n, data)
  {
    hide Flat, HasTable, NewPage, Pte, Present, Part, KernelPte;
    forall g | 0 <= g < |own0| ensures !own0[g].Free? ==> own1[g] == own0[g] {
      assert OwnMade(own0[g], own1[g], d, g);
    }
    GrownDir(mem1, own1, mem, own, d, 0, n, -1, d, Copies(mem1, p, n));
    forall vp | 0 <= vp < n ensures SamePage(mem0, own0, mem, p, d, vp) {
      CopyPage(mem0, own0, mem1, own1, mem, own, p, d, n, data, vp);
    }
    forall vp | n <= vp < PAGES ensures Flat(mem, d, vp) == KernelPte(data, vp) {
      PartAll(data, vp);
    }
  }

  lemma CopyPage(mem0: Mem, own0: Owners, mem1: Mem, own1: Owners, mem: Mem, own: Owners, p: int, d: int, n: int,
                 data: int, vp: int)
    requires n >= 0 && Consistent(mem0, own0) && Consistent(mem1, own1)
    requires Made(mem0, own0, mem1, own1, d, data, 4) && Grown(mem1, own1, mem, own, d, 0, n, -1, Copies(mem1, p, n))
    requires 0 <= p < |own0| && own0[p].Dir? && 0 <= vp < n <= USERPAGES && Present(Flat(mem0, p, vp))
    ensures SamePage(mem0, own0, mem, p, d, vp)
  {
    hide Flat, HasTable, Pte, Part;
    var t, f := MappedAt(mem0, own0, p, vp);
    var want := Copies(mem1, p, n);
    assert NewPage(own1, mem, d, vp, want[vp]);
    var w' := Flat(mem, d, vp);
    assert OwnMade(own0[Frame(w')], own1[Frame(w')], d, Frame(w'));
    FlagsBack(Frame(w'), want[vp].perm);
  }

  lemma FlagsBack(f: int, perm: int)
    requires 0 <= perm < 4096
    ensures perm % 2 == 1 ==> (f * 4096 + perm) % 4096 == perm
  {
  }

  /** A failed copyuvm, after freevm: only the page it may have had in hand is not given back. */
  ghost predicate NotCopied(mem0: Mem, own0: Owners, mem: Mem, own: Owners, lost: int)
  {
    && |own| == |own0| == |mem| == |mem0| && SameMaps(mem0, own0, mem) && Kept(mem0, own0, mem)
    && forall g :: 0 <= g < |own0| ==> own[g] == if own0[g].Free? && g == lost then Other else own0[g]
  }

  lemma CopyUndone(mem0: Mem, own0: Owners, mem1: Mem, own1: Owners, mem2: Mem, own2: Owners, mem: Mem, own: Owners,
                   d: int, data: int, k: int, lost: int, want: seq<Want>)
    requires Consistent(mem0, own0) && Consistent(mem2, own2)
    requires Made(mem0, own0, mem1, own1, d, data, 4) && Grown(mem1, own1, mem2, own2, d, 0, k, lost, want)
    requires Gone(mem2, own2, mem, own, d)
    requires (lost != -1 ==> 0 <= lost < |own2| && own2[lost].Other? && own1[lost].Free?)
    ensures NotCopied(mem0, own0, mem, own, lost) && |own| == |own0|
    ensures lost != -1 ==> lost < |own0| && own0[lost].Free? && own[lost].Other?
  {
    hide Flat, HasTable, NewPage, Part;
    forall g | 0 <= g < |own0|
      ensures own[g] == if own0[g].Free? && g == lost then Other else own0[g]
      ensures own0[g].Data? || own0[g].Other? ==> mem[g] == mem0[g]
      ensures own0[g].Dir? ==> g != d && own1[g].Dir? && own2[g].Dir?
    {
      assert OwnMade(own0[g], own1[g], d, g) && OwnGrown(own1[g], own2[g], d, 0, k, lost, g);
      assert OwnOk(mem0, own0, g);
    }
  }

  lemma NothingMade(mem: Mem, own: Owners)
    requires |own| == |mem|
    ensures Abandoned(mem, own, mem, own, -1)
  {
  }

  lemma AbandonedSize(mem0: Mem, own0: Owners, mem: Mem, own: Owners, e: int)
    requires Abandoned(mem0, own0, mem, own, e)
    ensures |own| == |own0|
  {
  }

  lemma MadeSize(mem0: Mem, own0: Owners, mem: Mem, own: Owners, d: int, data: int)
    requires Made(mem0, own0, mem, own, d, data, 4)
    ensures |own| == |own0|
  {
  }

  /** The free list does not notice a page becoming a directory. */
  lemma DirFree(mem: Mem, own: Owners, head: int, free: seq<int>, lo: int, d: int)
    requires FreeOk(mem, own, head, free, lo) && lo <= d < |mem| && |own| == |mem| && own[d].Other?
    ensures FreeOk(mem[d := ZeroPage()], own[d := Dir], head, free, lo)
  {
    ChainFrame(mem, mem[d := ZeroPage()], head, free);
  }

  /** What mappages asks for, at entry j of kmap. */
  lemma MadeReady(mem0: Mem, own0: Owners, mem: Mem, own: Owners, d: int, data: int, j: int, lo: int)
    requires DataOk(data) && 0 <= j < 4 && Made(mem0, own0, mem, own, d, data, j)
    ensures 0 <= d < |own| && own[d].Dir?
    ensures forall vp :: FirstPage(data, j) <= vp < EndPage(data, j) ==> !Present(Flat(mem, d, vp))
    ensures Spare(own, lo, FirstFrame(data, j), FirstPage(data, j), EndPage(data, j))
  {
    hide Flat, HasTable, Pte, Kmaps;
    KmapPages(data, j);
    forall vp | FirstPage(data, j) <= vp < EndPage(data, j) ensures !Present(Flat(mem, d, vp)) {
      PartNext(data, j, vp);
    }
  }

  /** A new address space has no user pages, and no tables for them. */
  lemma MadeEmpty(mem0: Mem, own0: Owners, mem: Mem, own: Owners, d: int, data: int)
    requires DataOk(data) && Made(mem0, own0, mem, own, d, data, 4) && Tabled(mem, d, data, 4)
    ensures |own| == |mem| && 0 <= d < |own| && own[d].Dir? && !HasTable(mem, d, 0)
    ensures forall vp :: 0 <= vp < USERPAGES ==> Flat(mem, d, vp) == 0
  {
    hide Flat, HasTable, Pte;
  }

  /** The parent and the new address space, when the copying starts. */
  lemma MadeUser(mem0: Mem, own0: Owners, mem: Mem, own: Owners, p: int, d: int, data: int)
    requires DataOk(data) && Made(mem0, own0, mem, own, d, data, 4) && 0 <= p < |own0| && own0[p].Dir?
    ensures |own| == |own0| == |mem| && 0 <= d < |own| && own[d].Dir? && own[p].Dir? && p != d
    ensures forall vp :: 0 <= vp < PAGES ==> Flat(mem, p, vp) == Flat(mem0, p, vp)
    ensures forall vp :: 0 <= vp < USERPAGES ==> Flat(mem, d, vp) == 0
  {
    hide Flat, HasTable, Pte;
    assert OwnMade(own0[p], own[p], d, p);
  }
}
