/**
Adding pages to an address space, as allocuvm and copyuvm do: which pages, what it costs, and what
taking them away again restores.
*/
module VmGrow {
  import opened VmSpace
  import opened VmFree
  import opened VmMap

  function ZeroPage(): (p: seq<int>)
    ensures |p| == ENTRIES && forall j :: 0 <= j < ENTRIES ==> p[j] == 0
  {
    seq(ENTRIES, _ => 0)
  }

  /** What a new page is to be: its flag bits and its contents. */
  datatype Want = Want(perm: int, page: seq<int>)

  /** Writable, user-accessible, zeroed pages. */
  function Blank(n: int): (want: seq<Want>)
    requires 0 <= n
    ensures |want| == n && forall i :: 0 <= i < n ==> want[i] == Want(6, ZeroPage())
  {
    seq(n, _ => Want(6, ZeroPage()))
  }

  ghost predicate Sane(x: Want)
  {
    0 <= x.perm < 4096 && |x.page| == ENTRIES
  }

  /** Page wp of d is mapped, with the flags and contents wanted, to a frame that was free. */
  ghost predicate NewPage(own0: Owners, mem: Mem, d: int, wp: int, x: Want)
  {
    var w := Flat(mem, d, wp);
    && Present(w) && 0 <= Frame(w) < |mem| && Frame(w) < |own0|
    && w == Frame(w) * 4096 + (if x.perm % 2 == 1 then x.perm else x.perm + 1)
    && own0[Frame(w)].Free? && mem[Frame(w)] == x.page
  }

  predicate OwnGrown(o: Owner, o': Owner, d: int, a0: int, k: int, lost: int, g: int)
  {
    if o.Free?
    then o'.Free? || (o'.Table? && o'.dir == d) || (o'.Data? && o'.dir == d && a0 <= o'.vp < k)
      || (o'.Other? && g == lost)
    else o' == o
  }

  /** d has new pages from a0 up to k, as wanted; pages in use keep their contents; the frame lost, if
      not -1, is in no list and no table. */
  ghost predicate Grown(mem0: Mem, own0: Owners, mem: Mem, own: Owners, d: int, a0: int, k: int, lost: int,
                        want: seq<Want>)
  {
    && |own| == |own0| == |mem| == |mem0| && 0 <= a0 && k <= |want| && Kept(mem0, own0, mem)
    && (forall e, wp :: 0 <= e < |mem0| && own0[e].Dir? && 0 <= wp < PAGES && !(e == d && a0 <= wp < k) ==>
          Flat(mem, e, wp) == Flat(mem0, e, wp))
    && (forall wp :: a0 <= wp < k ==> NewPage(own0, mem, d, wp, want[wp]))
    && (forall e, i :: 0 <= e < |mem0| && own0[e].Dir? && 0 <= i < 1024 ==>
          (HasTable(mem, e, i) <==> HasTable(mem0, e, i) || (e == d && k > a0 && a0 / 1024 <= i <= (k - 1) / 1024)))
    && (forall g :: 0 <= g < |own0| ==> OwnGrown(own0[g], own[g], d, a0, k, lost, g))
  }

  /** How many pages of d are mapped from page 0 on without a gap, below n. */
  ghost function Lead(mem: Mem, d: int, n: int): int
    decreases n
  {
    if n <= 0 then 0
    else
      var k := Lead(mem, d, n - 1);
      if k == n - 1 && Present(Flat(mem, d, n - 1)) then n else k
  }

  lemma {:induction false} LeadIs(mem: Mem, d: int, n: int)
    requires 0 <= n
    ensures 0 <= Lead(mem, d, n) <= n
    ensures forall vp :: 0 <= vp < Lead(mem, d, n) ==> Present(Flat(mem, d, vp))
    ensures Lead(mem, d, n) < n ==> !Present(Flat(mem, d, Lead(mem, d, n)))
    decreases n
  {
    if n > 0 {
      LeadIs(mem, d, n - 1);
    }
  }

  lemma Unmapped(mem: Mem, d: int, vp: int)
    requires !HasTable(mem, d, vp / 1024)
    ensures !Present(Flat(mem, d, vp))
  {
  }

  lemma GrowNone(mem: Mem, own: Owners, d: int, a0: int, want: seq<Want>)
    requires |own| == |mem| && 0 <= a0 <= |want|
    ensures Grown(mem, own, mem, own, d, a0, a0, -1, want)
  {
  }

  /** Frames that growing d from a0 up to k takes: a page each, and the new tables. */
  ghost function Cost(mem: Mem, d: int, a0: int, k: int): int
  {
    k - a0 + NewTables(mem, d, a0, k)
  }

  /** Where allocuvm stops with n free frames: the first page it cannot complete, or the end b. */
  ghost predicate Stops(mem: Mem, d: int, a0: int, b: int, n: int, k: int)
  {
    a0 <= k <= b && n >= Cost(mem, d, a0, k) && (k < b ==> n < Cost(mem, d, a0, k + 1))
  }

  /** A frame f fresh from kalloc is filled: the state in which mappages is called for page a. */
  ghost predicate Fetched(own0: Owners, own: Owners, mem: Mem, mem1: Mem, own1: Owners, f: int, x: Want)
  {
    && 0 <= f < |mem| && |own0| == |own| == |mem| && own[f].Free? && own1 == own[f := Other]
    && Sane(x) && mem1 == mem[f := x.page]
  }

  lemma FetchMaps(own0: Owners, own: Owners, mem: Mem, mem1: Mem, own1: Owners, f: int, x: Want)
    requires Consistent(mem, own) && Fetched(own0, own, mem, mem1, own1, f, x)
    ensures Consistent(mem1, own1) && SameMaps(mem, own, mem1)
    ensures forall e, i :: 0 <= e < |mem| && own[e].Dir? ==> (HasTable(mem1, e, i) <==> HasTable(mem, e, i))
  {
    hide Flat;
    LooseOwner(mem, own, f, x.page, Other);
  }

  lemma FetchNeeds(mem0: Mem, own0: Owners, mem: Mem, own: Owners, mem1: Mem, own1: Owners, d: int, a0: int, a: int,
                   f: int, x: Want, want: seq<Want>)
    requires Consistent(mem, own) && Grown(mem0, own0, mem, own, d, a0, a, -1, want)
    requires Fetched(own0, own, mem, mem1, own1, f, x)
    requires 0 <= d < |own0| && own0[d].Dir? && 0 <= a0 <= a < USERPAGES && !Present(Flat(mem0, d, a))
    ensures own1[d].Dir? && !Present(Flat(mem1, d, a)) && (Needs(mem1, d, a, a) <==> Needs(mem0, d, a0, a))
    ensures NewTables(mem1, d, a, a + 1) == if Needs(mem0, d, a0, a) then 1 else 0
  {
    hide Flat, Present;
    FetchMaps(own0, own, mem, mem1, own1, f, x);
    assert OwnGrown(own0[d], own[d], d, a0, a, -1, d);
    Rounds(a0, a);
    assert NewTables(mem1, d, a, a) == 0;
  }

  /** The owner of every old directory, table and data frame stays. */
  lemma GrownDir(mem0: Mem, own0: Owners, mem: Mem, own: Owners, d: int, a0: int, k: int, lost: int, e: int,
                 want: seq<Want>)
    requires Grown(mem0, own0, mem, own, d, a0, k, lost, want) && 0 <= e < |own0| && own0[e].Dir?
    ensures own[e].Dir?
  {
    assert OwnGrown(own0[e], own[e], d, a0, k, lost, e);
  }

  lemma FreeBefore(mem0: Mem, own0: Owners, mem: Mem, own: Owners, d: int, a0: int, k: int, f: int, want: seq<Want>)
    requires Grown(mem0, own0, mem, own, d, a0, k, -1, want) && 0 <= f < |own| && own[f].Free?
    ensures f < |own0| && own0[f].Free?
  {
    assert OwnGrown(own0[f], own[f], d, a0, k, -1, f);
  }

  /** mappages has mapped page a to f. */
  lemma GrowStep(mem0: Mem, own0: Owners, mem: Mem, own: Owners, mem1: Mem, own1: Owners, mem2: Mem, own2: Owners,
                 d: int, a0: int, a: int, f: int, x: Want, want: seq<Want>)
    requires Consistent(mem, own) && Grown(mem0, own0, mem, own, d, a0, a, -1, want)
    requires Fetched(own0, own, mem, mem1, own1, f, x)
    requires 0 <= d < |own0| && own0[d].Dir? && 0 <= a0 <= a < USERPAGES
    requires Range(mem1, own1, mem2, own2, d, a, a + 1, f, x.perm) && Kept(mem1, own1, mem2)
    requires a < |want| && want[a] == x
    ensures Grown(mem0, own0, mem2, own2, d, a0, a + 1, -1, want)
  {
    hide Flat, Present, HasTable, Pte, Consistent, NewPage, OwnGrown, OwnRange, Kept;
    GrowKept(mem0, own0, mem, own, mem1, own1, mem2, d, a0, a, f, x, want);
    GrowMaps(mem0, own0, mem, own, mem1, own1, mem2, own2, d, a0, a, f, x, want);
    GrowPages(mem0, own0, mem, own, mem1, own1, mem2, own2, d, a0, a, f, x, want);
    GrowTables(mem0, own0, mem, own, mem1, own1, mem2, own2, d, a0, a, f, x, want);
    forall g | 0 <= g < |own0| ensures OwnGrown(own0[g], own2[g], d, a0, a + 1, -1, g) {
      GrowOwn(mem0, own0, mem, own, mem1, own1, mem2, own2, d, a0, a, a + 1, f, -1, g, x, want);
    }
  }

  lemma GrowOwn(mem0: Mem, own0: Owners, mem: Mem, own: Owners, mem1: Mem, own1: Owners, mem2: Mem, own2: Owners,
                d: int, a0: int, a: int, m: int, f: int, lost: int, g: int, x: Want, want: seq<Want>)
    requires Grown(mem0, own0, mem, own, d, a0, a, -1, want) && Fetched(own0, own, mem, mem1, own1, f, x)
    requires 0 <= a0 <= a < USERPAGES
    requires Range(mem1, own1, mem2, own2, d, a, m, f, x.perm) && a <= m <= a + 1 && 0 <= g < |own0|
    requires if m == a then lost == f else lost == -1
    ensures OwnGrown(own0[g], own2[g], d, a0, m, lost, g)
  {
    hide Flat, Present, HasTable, Pte, NewPage;
    assert OwnGrown(own0[g], own[g], d, a0, a, -1, g);
    assert OwnRange(own1[g], own2[g], d, a, m, f, g);
    assert OwnGrown(own0[f], own[f], d, a0, a, -1, f);
  }

  lemma GrowMaps(mem0: Mem, own0: Owners, mem: Mem, own: Owners, mem1: Mem, own1: Owners, mem2: Mem, own2: Owners,
                 d: int, a0: int, a: int, f: int, x: Want, want: seq<Want>)
    requires Consistent(mem, own) && Grown(mem0, own0, mem, own, d, a0, a, -1, want)
    requires Fetched(own0, own, mem, mem1, own1, f, x)
    requires Range(mem1, own1, mem2, own2, d, a, a + 1, f, x.perm) && a0 <= a
    ensures forall e, wp :: 0 <= e < |mem0| && own0[e].Dir? && 0 <= wp < PAGES && !(e == d && a0 <= wp < a + 1) ==>
      Flat(mem2, e, wp) == Flat(mem0, e, wp)
  {
    hide Flat, Present, HasTable, Pte, Consistent, NewPage, OwnGrown, OwnRange, Kept;
    FetchMaps(own0, own, mem, mem1, own1, f, x);
    forall e, wp | 0 <= e < |mem0| && own0[e].Dir? && 0 <= wp < PAGES && !(e == d && a0 <= wp < a + 1)
      ensures Flat(mem2, e, wp) == Flat(mem0, e, wp)
    {
      GrownDir(mem0, own0, mem, own, d, a0, a, -1, e, want);
    }
  }

  lemma GrowTables(mem0: Mem, own0: Owners, mem: Mem, own: Owners, mem1: Mem, own1: Owners, mem2: Mem, own2: Owners,
                   d: int, a0: int, a: int, f: int, x: Want, want: seq<Want>)
    requires Consistent(mem, own) && Grown(mem0, own0, mem, own, d, a0, a, -1, want)
    requires Fetched(own0, own, mem, mem1, own1, f, x)
    requires Range(mem1, own1, mem2, own2, d, a, a + 1, f, x.perm) && 0 <= a0 <= a < PAGES
    ensures forall e, i :: 0 <= e < |mem0| && own0[e].Dir? && 0 <= i < 1024 ==>
      (HasTable(mem2, e, i) <==> HasTable(mem0, e, i) || (e == d && a0 / 1024 <= i <= a / 1024))
  {
    hide Flat, Present, HasTable, Pte, Consistent, NewPage, OwnGrown, OwnRange, Kept;
    FetchMaps(own0, own, mem, mem1, own1, f, x);
    Rounds(a0, a);
    forall e, i | 0 <= e < |mem0| && own0[e].Dir? && 0 <= i < 1024
      ensures HasTable(mem2, e, i) <==> HasTable(mem0, e, i) || (e == d && a0 / 1024 <= i <= a / 1024)
    {
      GrownDir(mem0, own0, mem, own, d, a0, a, -1, e, want);
    }
  }

  lemma GrowPages(mem0: Mem, own0: Owners, mem: Mem, own: Owners, mem1: Mem, own1: Owners, mem2: Mem, own2: Owners,
                  d: int, a0: int, a: int, f: int, x: Want, want: seq<Want>)
    requires Consistent(mem, own) && Grown(mem0, own0, mem, own, d, a0, a, -1, want)
    requires Fetched(own0, own, mem, mem1, own1, f, x)
    requires 0 <= d < |own0| && own0[d].Dir? && 0 <= a0 <= a < USERPAGES
    requires Range(mem1, own1, mem2, own2, d, a, a + 1, f, x.perm) && Kept(mem1, own1, mem2)
    requires a < |want| && want[a] == x
    ensures forall wp :: a0 <= wp < a + 1 ==> NewPage(own0, mem2, d, wp, want[wp])
  {
    hide Flat, Present, HasTable, Pte, Consistent, OwnGrown, OwnRange, Grown;
    forall wp | a0 <= wp < a + 1 ensures NewPage(own0, mem2, d, wp, want[wp]) {
      GrowPage(mem0, own0, mem, own, mem1, own1, mem2, own2, d, a0, a, f, wp, x, want);
    }
  }

  lemma GrowPage(mem0: Mem, own0: Owners, mem: Mem, own: Owners, mem1: Mem, own1: Owners, mem2: Mem, own2: Owners,
                 d: int, a0: int, a: int, f: int, wp: int, x: Want, want: seq<Want>)
    requires Consistent(mem, own) && Grown(mem0, own0, mem, own, d, a0, a, -1, want)
    requires Fetched(own0, own, mem, mem1, own1, f, x)
    requires 0 <= d < |own0| && own0[d].Dir? && 0 <= a0 <= a < USERPAGES && a0 <= wp <= a
    requires Range(mem1, own1, mem2, own2, d, a, a + 1, f, x.perm) && Kept(mem1, own1, mem2)
    requires a < |want| && want[a] == x
    ensures NewPage(own0, mem2, d, wp, want[wp])
  {
    hide Flat, HasTable, Consistent, OwnRange, Pte, Present;
    GrownDir(mem0, own0, mem, own, d, a0, a, -1, d, want);
    FetchMaps(own0, own, mem, mem1, own1, f, x);
    PteParts(f, x.perm);
    assert OwnGrown(own0[f], own[f], d, a0, a, -1, f);
    if wp < a {
      assert NewPage(own0, mem, d, wp, want[wp]);
      var t, g := MappedAt(mem, own, d, wp);
      assert Flat(mem2, d, wp) == Flat(mem1, d, wp) == Flat(mem, d, wp);
      assert g != f;
    } else {
      assert Flat(mem2, d, wp) == Pte(f, x.perm);
    }
  }

  lemma GrowKept(mem0: Mem, own0: Owners, mem: Mem, own: Owners, mem1: Mem, own1: Owners, mem2: Mem, d: int, a0: int,
                 a: int, f: int, x: Want, want: seq<Want>)
    requires Grown(mem0, own0, mem, own, d, a0, a, -1, want) && Fetched(own0, own, mem, mem1, own1, f, x)
    requires Kept(mem1, own1, mem2)
    ensures Kept(mem0, own0, mem2)
  {
    hide Flat, HasTable, NewPage;
    forall g | 0 <= g < |own0| && (own0[g].Data? || own0[g].Other?) ensures mem2[g] == mem0[g] {
      assert OwnGrown(own0[g], own[g], d, a0, a, -1, g);
    }
  }

  /** mappages could not get its table: the page in hand is lost. */
  lemma GrowLost(mem0: Mem, own0: Owners, mem: Mem, own: Owners, mem1: Mem, own1: Owners, mem2: Mem, own2: Owners,
                 d: int, a0: int, a: int, f: int, x: Want, want: seq<Want>)
    requires Consistent(mem, own) && Grown(mem0, own0, mem, own, d, a0, a, -1, want)
    requires Fetched(own0, own, mem, mem1, own1, f, x)
    requires 0 <= d < |own0| && own0[d].Dir? && 0 <= a0 <= a < USERPAGES
    requires Range(mem1, own1, mem2, own2, d, a, a, f, x.perm) && Kept(mem1, own1, mem2)
    ensures Grown(mem0, own0, mem2, own2, d, a0, a, f, want)
  {
    hide Flat, Present, HasTable, Pte, Consistent, NewPage, OwnGrown, OwnRange, Kept;
    FetchMaps(own0, own, mem, mem1, own1, f, x);
    GrowKept(mem0, own0, mem, own, mem1, own1, mem2, d, a0, a, f, x, want);
    forall e | 0 <= e < |mem0| && own0[e].Dir? ensures own[e].Dir? && own1[e].Dir? {
      GrownDir(mem0, own0, mem, own, d, a0, a, -1, e, want);
    }
    forall wp | a0 <= wp < a ensures NewPage(own0, mem2, d, wp, want[wp]) {
      LostPage(mem0, own0, mem, own, mem1, own1, mem2, own2, d, a0, a, f, wp, x, want);
    }
    forall g | 0 <= g < |own0| ensures OwnGrown(own0[g], own2[g], d, a0, a, f, g) {
      GrowOwn(mem0, own0, mem, own, mem1, own1, mem2, own2, d, a0, a, a, f, f, g, x, want);
    }
  }

  lemma LostPage(mem0: Mem, own0: Owners, mem: Mem, own: Owners, mem1: Mem, own1: Owners, mem2: Mem, own2: Owners,
                 d: int, a0: int, a: int, f: int, wp: int, x: Want, want: seq<Want>)
    requires Consistent(mem, own) && Grown(mem0, own0, mem, own, d, a0, a, -1, want)
    requires Fetched(own0, own, mem, mem1, own1, f, x)
    requires 0 <= d < |own0| && own0[d].Dir? && 0 <= a0 <= wp < a < USERPAGES
    requires Range(mem1, own1, mem2, own2, d, a, a, f, x.perm) && Kept(mem1, own1, mem2)
    ensures NewPage(own0, mem2, d, wp, want[wp])
  {
    hide Flat, HasTable, Consistent, OwnRange, Pte, Present;
    GrownDir(mem0, own0, mem, own, d, a0, a, -1, d, want);
    FetchMaps(own0, own, mem, mem1, own1, f, x);
    assert NewPage(own0, mem, d, wp, want[wp]);
    var t, g := MappedAt(mem, own, d, wp);
    assert Flat(mem2, d, wp) == Flat(mem1, d, wp) == Flat(mem, d, wp);
  }

  /** deallocuvm after a failure takes every new page away again: the flat maps are the old ones. */
  lemma RolledBack(mem0: Mem, own0: Owners, mem: Mem, own: Owners, mem2: Mem, own2: Owners, d: int, a0: int, k: int,
                   lost: int, top: int, want: seq<Want>)
    requires Grown(mem0, own0, mem, own, d, a0, k, lost, want) && Freed(mem, own, mem2, own2, d, a0, top)
    requires 0 <= a0 <= k <= top <= USERPAGES
    requires 0 <= d < |own0| && own0[d].Dir? && forall vp :: a0 <= vp < USERPAGES ==> Flat(mem0, d, vp) == 0
    requires Consistent(mem0, own0) && Consistent(mem, own)
    ensures SameMaps(mem0, own0, mem2) && Kept(mem0, own0, mem2)
    ensures forall g :: 0 <= g < |own0| ==> OwnGrown(own0[g], own2[g], d, a0, a0, lost, g)
  {
    hide Flat, HasTable, NewPage, Present, Consistent;
    RolledKept(mem0, own0, mem, own, mem2, own2, d, a0, k, lost, top, want);
    NoneMissed(mem0, own0, mem, own, d, a0, k, lost, want);
    forall e, wp | 0 <= e < |mem0| && own0[e].Dir? && 0 <= wp < PAGES ensures Flat(mem2, e, wp) == Flat(mem0, e, wp) {
      GrownDir(mem0, own0, mem, own, d, a0, k, lost, e, want);
    }
    forall g | 0 <= g < |own0| ensures OwnGrown(own0[g], own2[g], d, a0, a0, lost, g) {
      assert OwnGrown(own0[g], own[g], d, a0, k, lost, g);
      OldData(mem0, own0, d, a0, g);
    }
  }

  lemma RolledKept(mem0: Mem, own0: Owners, mem: Mem, own: Owners, mem2: Mem, own2: Owners, d: int, a0: int, k: int,
                   lost: int, top: int, want: seq<Want>)
    requires Grown(mem0, own0, mem, own, d, a0, k, lost, want) && Freed(mem, own, mem2, own2, d, a0, top)
    requires Consistent(mem0, own0) && forall vp :: a0 <= vp < USERPAGES ==> Flat(mem0, d, vp) == 0
    ensures Kept(mem0, own0, mem2)
  {
    hide Flat, HasTable, NewPage, Present, Consistent, Missed;
    forall g | 0 <= g < |own0| && (own0[g].Data? || own0[g].Other?) ensures mem2[g] == mem0[g] {
      assert OwnGrown(own0[g], own[g], d, a0, k, lost, g);
      OldData(mem0, own0, d, a0, g);
    }
  }

  /** The pages just added start at a0, so nothing is jumped over among them. */
  lemma NoneMissed(mem0: Mem, own0: Owners, mem: Mem, own: Owners, d: int, a0: int, k: int, lost: int, want: seq<Want>)
    requires Grown(mem0, own0, mem, own, d, a0, k, lost, want) && 0 <= a0 <= k <= USERPAGES && 0 <= d < |own0|
    requires own0[d].Dir?
    ensures forall vp :: a0 <= vp < k ==> !Missed(mem, d, a0, vp)
  {
    hide Flat, NewPage, HasTable, OwnGrown;
    if k > a0 {
      Rounds(a0, k - 1);
      Rounds(a0, a0);
      assert HasTable(mem, d, a0 / 1024);
    }
  }

  /** No frame served a page of d from a0 on before. */
  lemma OldData(mem0: Mem, own0: Owners, d: int, a0: int, g: int)
    requires Consistent(mem0, own0) && 0 <= g < |own0| && forall vp :: a0 <= vp < USERPAGES ==> Flat(mem0, d, vp) == 0
    ensures own0[g].Data? && own0[g].dir == d ==> own0[g].vp < a0
  {
    hide Flat;
    assert OwnOk(mem0, own0, g);
  }

  /** The flat maps and the pages in use are the old ones, and every frame that was free is free, a table
      of d, or lost. */
  ghost predicate Undone(mem0: Mem, own0: Owners, mem: Mem, own: Owners, d: int, lost: int)
  {
    && |own| == |own0| == |mem| == |mem0| && SameMaps(mem0, own0, mem) && Kept(mem0, own0, mem)
    && forall g :: 0 <= g < |own0| ==> OwnGrown(own0[g], own[g], d, 0, 0, lost, g)
  }

  lemma LostStays(mem: Mem, own: Owners, mem': Mem, own': Owners, d: int, a0: int, top: int, lost: int)
    requires Freed(mem, own, mem', own', d, a0, top)
    ensures 0 <= lost < |own| && own[lost].Other? ==> lost < |own'| && own'[lost].Other?
  {
  }

  lemma UndoneAll(mem0: Mem, own0: Owners, mem: Mem, own: Owners, d: int, a0: int, lost: int)
    requires |own| == |own0| == |mem| == |mem0| && SameMaps(mem0, own0, mem) && Kept(mem0, own0, mem)
    requires forall g :: 0 <= g < |own0| ==> OwnGrown(own0[g], own[g], d, a0, a0, lost, g)
    ensures Undone(mem0, own0, mem, own, d, lost)
  {
  }

  /** A space without gaps below a0 has none below its new end, exactly when every page was mapped. */
  lemma GrownLead(mem0: Mem, own0: Owners, mem: Mem, own: Owners, d: int, a0: int, k: int, b: int, lost: int,
                  want: seq<Want>)
    requires Grown(mem0, own0, mem, own, d, a0, k, lost, want) && 0 <= d < |own0| && own0[d].Dir?
    requires 0 <= a0 <= k <= b <= USERPAGES && Lead(mem0, d, a0) == a0
    requires forall vp :: a0 <= vp < USERPAGES ==> Flat(mem0, d, vp) == 0
    ensures Lead(mem, d, b) == b <==> k == b
  {
    hide Flat, HasTable, Lead, OwnGrown;
    LeadIs(mem0, d, a0);
    LeadIs(mem, d, b);
    forall vp | 0 <= vp < b ensures Present(Flat(mem, d, vp)) <==> vp < k {
      if a0 <= vp < k {
        assert NewPage(own0, mem, d, vp, want[vp]);
      }
    }
    var l := Lead(mem, d, b);
    assert l < b ==> (Present(Flat(mem, d, l)) <==> l < k);
    assert k < b ==> !Present(Flat(mem, d, k));
  }

  lemma AddedDir(mem: Mem, own: Owners, mem': Mem, own': Owners, d: int, a: int, m: int, f: int, x: Want)
    requires Range(mem, own, mem', own', d, a, m, f, x.perm) && 0 <= d < |own| && own[d].Dir? && 0 <= f < |own|
    requires own[f].Other? && m <= a + 1
    ensures |own'| == |own| == |mem'| && own'[d].Dir? && (m == a ==> own'[f].Other?)
  {
    assert OwnRange(own[d], own'[d], d, a, m, f, d) && OwnRange(own[f], own'[f], d, a, m, f, f);
  }
}
