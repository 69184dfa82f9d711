/**
The user-level allocator of umalloc.c.  Addresses count header-sized units of eight
bytes.  The free list is a ring through memory; in address order it is the sequence
`fl`, which starts at the static header `base` of size 0.
*/
module Umalloc {
  const UINT_RANGE: int := 0x1_0000_0000

  datatype Chunk = Chunk(addr: int, size: int)

  datatype Header = Header(ptr: int, size: int)

  // ---------------------------------------------------------------- free lists as sequences

  /** In address order, with a gap of at least one unit between neighbours. */
  ghost predicate Ordered(fl: seq<Chunk>)
  {
    && |fl| >= 1 && fl[0].size == 0
    && (forall i :: 1 <= i < |fl| ==> fl[i].size > 0)
    && (forall i, j :: 0 <= i < j < |fl| ==> fl[i].addr + fl[i].size < fl[j].addr)
  }

  ghost predicate InFree(fl: seq<Chunk>, u: int)
  {
    exists i :: 0 <= i < |fl| && fl[i].addr <= u < fl[i].addr + fl[i].size
  }

  ghost predicate InAlloc(alloc: map<int, int>, u: int)
  {
    exists a :: a in alloc && a <= u < a + alloc[a]
  }

  /** Free and allocated blocks are disjoint and together are exactly the arena. */
  ghost predicate Tiled(fl: seq<Chunk>, alloc: map<int, int>, arena: set<int>)
  {
    && (forall u :: u in arena <==> InFree(fl, u) || InAlloc(alloc, u))
    && (forall u :: !(InFree(fl, u) && InAlloc(alloc, u)))
    && (forall a :: a in alloc ==> alloc[a] > 0)
    && (forall a, b :: a in alloc && b in alloc && a < b ==> a + alloc[a] <= b)
  }

  /** b goes right after fl[k]. */
  ghost predicate FitsAfter(fl: seq<Chunk>, k: int, b: Chunk)
  {
    && 0 <= k < |fl| && b.size > 0
    && fl[k].addr < b.addr && fl[k].addr + fl[k].size <= b.addr
    && (k + 1 < |fl| ==> b.addr + b.size <= fl[k + 1].addr)
  }

  function Put(fl: seq<Chunk>, k: int, b: Chunk): seq<Chunk>
    requires 0 <= k < |fl|
  {
    fl[..k + 1] + [b] + fl[k + 1..]
  }

  lemma PutAt(fl: seq<Chunk>, k: int, b: Chunk) returns (r: seq<Chunk>)
    requires 0 <= k < |fl|
    ensures r == Put(fl, k, b) && |r| == |fl| + 1 && r[k + 1] == b
    ensures forall i :: 0 <= i <= k ==> r[i] == fl[i]
    ensures forall i :: k + 1 < i <= |fl| ==> r[i] == fl[i - 1]
  {
    r := Put(fl, k, b);
  }

  predicate Touch(fl: seq<Chunk>, i: int)
  {
    0 <= i < |fl| - 1 && fl[i].addr + fl[i].size == fl[i + 1].addr
  }

  /** fl[i] joined with its successor if they touch. */
  function Join(fl: seq<Chunk>, i: int): seq<Chunk>
  {
    if Touch(fl, i) then fl[..i] + [Chunk(fl[i].addr, fl[i].size + fl[i + 1].size)] + fl[i + 2..] else fl
  }

  lemma JoinAt(fl: seq<Chunk>, i: int) returns (r: seq<Chunk>)
    ensures r == Join(fl, i) && (!Touch(fl, i) ==> r == fl)
    ensures Touch(fl, i) ==> |r| == |fl| - 1 && r[i] == Chunk(fl[i].addr, fl[i].size + fl[i + 1].size)
    ensures Touch(fl, i) ==> forall j :: 0 <= j < i ==> r[j] == fl[j]
    ensures Touch(fl, i) ==> forall j :: i < j < |fl| - 1 ==> r[j] == fl[j + 1]
  {
    r := Join(fl, i);
  }

  /** The list with b freed into it after fl[k], joined with the neighbours it touches. */
  function Insert(fl: seq<Chunk>, k: int, b: Chunk): seq<Chunk>
    requires 0 <= k < |fl|
  {
    Join(Join(Put(fl, k, b), k + 1), k)
  }

  /** In address order; only the neighbours lo, lo + 1 up to hi may touch. */
  ghost predicate NearlyOrdered(fl: seq<Chunk>, lo: int, hi: int)
  {
    && |fl| >= 1 && fl[0].size == 0
    && (forall i :: 1 <= i < |fl| ==> fl[i].size > 0)
    && (forall i, j :: 0 <= i < j < |fl| ==> InOrder(fl[i], fl[j], lo <= i < hi))
  }

  predicate InOrder(a: Chunk, b: Chunk, touching: bool)
  {
    a.addr < b.addr && if touching then a.addr + a.size <= b.addr else a.addr + a.size < b.addr
  }

  lemma PutNearlyOrdered(fl: seq<Chunk>, k: int, b: Chunk)
    requires Ordered(fl) && FitsAfter(fl, k, b)
    ensures NearlyOrdered(Put(fl, k, b), k, k + 2) && Put(fl, k, b)[0].addr == fl[0].addr
  {
    hide Put;
    var r := PutAt(fl, k, b);
    forall i, j | 0 <= i < j < |r| ensures InOrder(r[i], r[j], k <= i < k + 2) {
      assert i < k && j == k + 1 ==> fl[i].addr + fl[i].size < fl[k].addr;
      assert i == k + 1 && j > k + 2 ==> fl[k + 1].addr + fl[k + 1].size < fl[j - 1].addr;
    }
  }

  lemma JoinNearlyOrdered(fl: seq<Chunk>, i: int)
    requires NearlyOrdered(fl, i - 1, i + 1) && 1 <= i
    ensures NearlyOrdered(Join(fl, i), i - 1, i) && Join(fl, i)[0].addr == fl[0].addr
  {
    hide Join, InOrder;
    var r := JoinAt(fl, i);
    forall x, y | 0 <= x < y < |r| ensures InOrder(r[x], r[y], i - 1 <= x < i) {
      JoinInOrder(fl, i, r, x, y, i - 1, i + 1);
    }
  }

  /** Two blocks of the joined list: the first ends where fl[x'] does, the second starts where fl[y'] does. */
  lemma JoinInOrder(fl: seq<Chunk>, i: int, r: seq<Chunk>, x: int, y: int, lo: int, hi: int)
    requires NearlyOrdered(fl, lo, hi) && 0 <= i && lo <= i && hi == i + 1 && r == Join(fl, i) && 0 <= x < y < |r|
    ensures InOrder(r[x], r[y], lo <= x < i)
  {
    hide Join;
    var _ := JoinAt(fl, i);
    if Touch(fl, i) {
      var x', y' := if x < i then x else x + 1, if y <= i then y else y + 1;
      assert InOrder(fl[x'], fl[y'], lo <= x' < hi);
      assert x == i ==> InOrder(fl[i], fl[y'], lo <= i < hi);
    } else {
      assert InOrder(fl[x], fl[y], lo <= x < hi);
      assert x == i ==> InOrder(fl[i], fl[i + 1], true) && (y > i + 1 ==> InOrder(fl[i + 1], fl[y], false));
    }
  }

  lemma JoinOrdered(fl: seq<Chunk>, i: int)
    requires NearlyOrdered(fl, i, i + 1) && 0 <= i
    ensures Ordered(Join(fl, i)) && Join(fl, i)[0].addr == fl[0].addr
  {
    hide Join;
    var r := JoinAt(fl, i);
    forall x, y | 0 <= x < y < |r| ensures r[x].addr + r[x].size < r[y].addr {
      JoinInOrder(fl, i, r, x, y, i, i + 1);
    }
  }

  lemma NearlyRising(fl: seq<Chunk>, lo: int, hi: int)
    requires NearlyOrdered(fl, lo, hi)
    ensures Rising(fl)
  {
    forall i, j | 0 <= i < j < |fl| ensures fl[i].addr < fl[j].addr {
      assert InOrder(fl[i], fl[j], lo <= i < hi);
    }
  }

  lemma InsertOrdered(fl: seq<Chunk>, k: int, b: Chunk)
    requires Ordered(fl) && FitsAfter(fl, k, b)
    ensures Ordered(Insert(fl, k, b)) && Insert(fl, k, b)[0].addr == fl[0].addr
  {
    hide Put, Join, NearlyOrdered;
    PutNearlyOrdered(fl, k, b);
    JoinNearlyOrdered(Put(fl, k, b), k + 1);
    JoinOrdered(Join(Put(fl, k, b), k + 1), k);
  }

  lemma PutCells(fl: seq<Chunk>, k: int, b: Chunk, u: int)
    requires 0 <= k < |fl|
    ensures InFree(Put(fl, k, b), u) <==> InFree(fl, u) || b.addr <= u < b.addr + b.size
  {
    hide Put;
    var r := PutAt(fl, k, b);
    if InFree(fl, u) {
      var i :| 0 <= i < |fl| && fl[i].addr <= u < fl[i].addr + fl[i].size;
      assert r[if i <= k then i else i + 1] == fl[i];
    }
    assert r[k + 1] == b;
  }

  lemma JoinCells(fl: seq<Chunk>, i: int, u: int)
    requires Touch(fl, i) ==> fl[i].size >= 0 && fl[i + 1].size >= 0
    ensures InFree(Join(fl, i), u) <==> InFree(fl, u)
  {
    hide Join;
    var r := JoinAt(fl, i);
    if Touch(fl, i) {
      if InFree(fl, u) {
        var j :| 0 <= j < |fl| && fl[j].addr <= u < fl[j].addr + fl[j].size;
        var j' := if j <= i then j else j - 1;
        assert r[j'].addr <= u < r[j'].addr + r[j'].size;
      }
      if InFree(r, u) {
        var j :| 0 <= j < |r| && r[j].addr <= u < r[j].addr + r[j].size;
        var j' := if j < i || (j == i && u < fl[i + 1].addr) then j else j + 1;
        assert fl[j'].addr <= u < fl[j'].addr + fl[j'].size;
      }
    }
  }

  lemma InsertCells(fl: seq<Chunk>, k: int, b: Chunk, u: int)
    requires Ordered(fl) && FitsAfter(fl, k, b)
    ensures InFree(Insert(fl, k, b), u) <==> InFree(fl, u) || b.addr <= u < b.addr + b.size
  {
    hide Put, Join, InFree;
    var r := PutAt(fl, k, b);
    PutCells(fl, k, b, u);
    PutNearlyOrdered(fl, k, b);
    JoinCells(r, k + 1, u);
    JoinNearlyOrdered(r, k + 1);
    JoinCells(Join(r, k + 1), k, u);
  }

  /** The list after the last n units of fl[k] are handed out. */
  function Take(fl: seq<Chunk>, k: int, n: int): seq<Chunk>
    requires 0 <= k < |fl|
  {
    if fl[k].size == n then fl[..k] + fl[k + 1..] else fl[k := Chunk(fl[k].addr, fl[k].size - n)]
  }

  lemma TakeAt(fl: seq<Chunk>, k: int, n: int) returns (r: seq<Chunk>)
    requires 0 <= k < |fl|
    ensures r == Take(fl, k, n)
    ensures fl[k].size != n ==> r == fl[k := Chunk(fl[k].addr, fl[k].size - n)]
    ensures fl[k].size == n ==> |r| == |fl| - 1
    ensures fl[k].size == n ==> forall i :: 0 <= i < k ==> r[i] == fl[i]
    ensures fl[k].size == n ==> forall i :: k <= i < |fl| - 1 ==> r[i] == fl[i + 1]
  {
    r := Take(fl, k, n);
  }

  lemma TakeOrdered(fl: seq<Chunk>, k: int, n: int)
    requires Ordered(fl) && 1 <= k < |fl| && 0 < n <= fl[k].size
    ensures Ordered(Take(fl, k, n)) && Take(fl, k, n)[0] == fl[0]
  {
    hide Take;
    var r := TakeAt(fl, k, n);
  }

  lemma TakeKeeps(fl: seq<Chunk>, k: int, n: int, u: int)
    requires 1 <= k < |fl| && 0 < n <= fl[k].size && InFree(fl, u)
    requires var end := fl[k].addr + fl[k].size; !(end - n <= u < end)
    ensures InFree(Take(fl, k, n), u)
  {
    hide Take;
    var r := TakeAt(fl, k, n);
    var i :| 0 <= i < |fl| && fl[i].addr <= u < fl[i].addr + fl[i].size;
    var j := if fl[k].size == n && i > k then i - 1 else i;
    assert r[j].addr <= u < r[j].addr + r[j].size;
  }

  lemma TakeAdds(fl: seq<Chunk>, k: int, n: int, u: int)
    requires Ordered(fl) && 1 <= k < |fl| && 0 < n <= fl[k].size && InFree(Take(fl, k, n), u)
    ensures var end := fl[k].addr + fl[k].size; InFree(fl, u) && !(end - n <= u < end)
  {
    hide Take;
    var r := TakeAt(fl, k, n);
    var j :| 0 <= j < |r| && r[j].addr <= u < r[j].addr + r[j].size;
    var i := if fl[k].size == n && j >= k then j + 1 else j;
    assert fl[i].addr <= u < fl[i].addr + fl[i].size;
    assert i < k ==> fl[i].addr + fl[i].size < fl[k].addr;
    assert i > k ==> fl[k].addr + fl[k].size < fl[i].addr;
  }

  // ---------------------------------------------------------------- tiling

  /** Freeing an allocated block keeps the arena tiled. */
  lemma FreeTiled(fl: seq<Chunk>, alloc: map<int, int>, arena: set<int>, k: int, bp: int)
    requires Ordered(fl) && Tiled(fl, alloc, arena) && bp in alloc
    requires FitsAfter(fl, k, Chunk(bp, alloc[bp]))
    ensures Tiled(Insert(fl, k, Chunk(bp, alloc[bp])), alloc - {bp}, arena)
  {
    hide InFree, Insert, Ordered;
    forall u
      ensures InFree(Insert(fl, k, Chunk(bp, alloc[bp])), u) <==> InFree(fl, u) || bp <= u < bp + alloc[bp]
      ensures InAlloc(alloc - {bp}, u) <==> InAlloc(alloc, u) && !(bp <= u < bp + alloc[bp])
    {
      InsertCells(fl, k, Chunk(bp, alloc[bp]), u);
      AllocWithout(alloc, bp, u);
    }
  }

  lemma AllocWithout(alloc: map<int, int>, bp: int, u: int)
    requires bp in alloc && forall a :: a in alloc ==> alloc[a] > 0
    requires forall a, b :: a in alloc && b in alloc && a < b ==> a + alloc[a] <= b
    ensures InAlloc(alloc - {bp}, u) <==> InAlloc(alloc, u) && !(bp <= u < bp + alloc[bp])
  {
    if InAlloc(alloc, u) && !(bp <= u < bp + alloc[bp]) {
      var a :| a in alloc && a <= u < a + alloc[a];
      assert a in alloc - {bp};
    }
    if InAlloc(alloc - {bp}, u) {
      var a :| a in alloc - {bp} && a <= u < a + (alloc - {bp})[a];
      assert a in alloc;
    }
  }

  lemma AllocWith(alloc: map<int, int>, p: int, n: int, u: int)
    requires p !in alloc
    ensures InAlloc(alloc[p := n], u) <==> InAlloc(alloc, u) || p <= u < p + n
  {
    if InAlloc(alloc, u) {
      var a :| a in alloc && a <= u < a + alloc[a];
      assert a in alloc[p := n] && alloc[p := n][a] == alloc[a];
    }
    if p <= u < p + n {
      assert p in alloc[p := n];
    }
    if InAlloc(alloc[p := n], u) {
      var a :| a in alloc[p := n] && a <= u < a + alloc[p := n][a];
      assert a == p || a in alloc;
    }
  }

  lemma FreeUnit(fl: seq<Chunk>, k: int, u: int)
    requires 0 <= k < |fl| && fl[k].addr <= u < fl[k].addr + fl[k].size
    ensures InFree(fl, u)
  {
  }

  /** Handing out the tail of a free block keeps the arena tiled. */
  lemma TakeTiled(fl: seq<Chunk>, alloc: map<int, int>, arena: set<int>, k: int, n: int)
    requires Ordered(fl) && Tiled(fl, alloc, arena) && 1 <= k < |fl| && 0 < n <= fl[k].size
    ensures var p := fl[k].addr + fl[k].size - n;
      p !in alloc && Tiled(Take(fl, k, n), alloc[p := n], arena)
  {
    hide InFree, Take, Ordered;
    var end := fl[k].addr + fl[k].size;
    var p := end - n;
    forall u | p <= u < end ensures InFree(fl, u) && !InAlloc(alloc, u) {
      FreeUnit(fl, k, u);
    }
    assert p !in alloc by { assert p in alloc ==> InAlloc(alloc, p); }
    forall u ensures InFree(Take(fl, k, n), u) <==> InFree(fl, u) && !(p <= u < end)
      ensures InAlloc(alloc[p := n], u) <==> InAlloc(alloc, u) || p <= u < end
    {
      if InFree(Take(fl, k, n), u) {
        TakeAdds(fl, k, n, u);
      } else if InFree(fl, u) && !(p <= u < end) {
        TakeKeeps(fl, k, n, u);
      }
      AllocWith(alloc, p, n, u);
    }
    forall a | a in alloc ensures a + alloc[a] <= p || end <= a {
      ApartFrom(alloc, a, p, n);
    }
  }

  /** An allocated block that shares no unit with [p, p + n) lies to one side of it. */
  lemma ApartFrom(alloc: map<int, int>, a: int, p: int, n: int)
    requires a in alloc && alloc[a] > 0 && n > 0
    requires forall u :: p <= u < p + n ==> !InAlloc(alloc, u)
    ensures a + alloc[a] <= p || p + n <= a
  {
    assert a <= p < a + alloc[a] ==> InAlloc(alloc, p);
    assert InAlloc(alloc, a);
  }

  // ---------------------------------------------------------------- the ring in memory

  function Next(i: int, n: int): int
  {
    if i + 1 == n then 0 else i + 1
  }

  /** Steps from i forward round the ring to k. */
  function Steps(i: int, k: int, n: int): int
  {
    if i <= k then k - i else k - i + n
  }

  ghost predicate LinkAt(mem: map<int, Header>, fl: seq<Chunk>, i: int)
    requires 0 <= i < |fl|
  {
    fl[i].addr in mem && mem[fl[i].addr] == Header(fl[Next(i, |fl|)].addr, fl[i].size)
  }

  /** Headers in memory spell out fl as a ring. */
  ghost predicate Linked(mem: map<int, Header>, fl: seq<Chunk>)
  {
    forall i :: 0 <= i < |fl| ==> LinkAt(mem, fl, i)
  }

  ghost predicate Rising(fl: seq<Chunk>)
  {
    forall i, j :: 0 <= i < j < |fl| ==> fl[i].addr < fl[j].addr
  }

  lemma Apart(fl: seq<Chunk>, i: int, j: int)
    requires Rising(fl) && 0 <= i < |fl| && 0 <= j < |fl| && i != j
    ensures fl[i].addr != fl[j].addr
  {
    assert fl[i].addr < fl[j].addr || fl[j].addr < fl[i].addr;
  }

  lemma PutLinked(mem: map<int, Header>, fl: seq<Chunk>, k: int, b: Chunk)
    requires 0 <= k < |fl| && Linked(mem, fl) && LinkAt(mem, fl, k) && Rising(Put(fl, k, b))
    ensures Linked(mem[b.addr := Header(mem[fl[k].addr].ptr, b.size)]
                      [fl[k].addr := Header(b.addr, fl[k].size)], Put(fl, k, b))
  {
    hide Put, Rising;
    var r := PutAt(fl, k, b);
    var mem' := mem[b.addr := Header(mem[fl[k].addr].ptr, b.size)][fl[k].addr := Header(b.addr, fl[k].size)];
    forall i | 0 <= i < |r| ensures LinkAt(mem', r, i) {
      if i != k { Apart(r, i, k); }
      if i != k + 1 { Apart(r, i, k + 1); }
      if i < k {
        assert LinkAt(mem, fl, i);
      } else if i > k + 1 {
        assert LinkAt(mem, fl, i - 1);
      }
    }
  }

  lemma JoinLinked(mem: map<int, Header>, fl: seq<Chunk>, i: int)
    requires Touch(fl, i) && Linked(mem, fl) && LinkAt(mem, fl, i + 1) && Rising(fl)
    ensures Linked(mem[fl[i].addr := Header(mem[fl[i + 1].addr].ptr, fl[i].size + fl[i + 1].size)], Join(fl, i))
  {
    hide Join, Rising;
    var r := JoinAt(fl, i);
    var mem' := mem[fl[i].addr := Header(mem[fl[i + 1].addr].ptr, fl[i].size + fl[i + 1].size)];
    forall j | 0 <= j < |r| ensures LinkAt(mem', r, j) {
      var j' := if j <= i then j else j + 1;
      if j' != i { Apart(fl, j', i); }
      assert LinkAt(mem, fl, j');
    }
  }

  lemma TakeLinked(mem: map<int, Header>, fl: seq<Chunk>, k: int)
    requires 1 <= k < |fl| && Linked(mem, fl) && LinkAt(mem, fl, k) && LinkAt(mem, fl, k - 1) && Rising(fl)
    ensures Linked(mem[fl[k - 1].addr := mem[fl[k - 1].addr].(ptr := mem[fl[k].addr].ptr)], Take(fl, k, fl[k].size))
  {
    hide Rising;
    var r := TakeAt(fl, k, fl[k].size);
    var mem' := mem[fl[k - 1].addr := mem[fl[k - 1].addr].(ptr := mem[fl[k].addr].ptr)];
    forall j | 0 <= j < |r| ensures LinkAt(mem', r, j) {
      var j' := if j < k then j else j + 1;
      if j' != k - 1 { Apart(fl, j', k - 1); }
      assert LinkAt(mem, fl, j');
    }
  }

  /** Headers elsewhere do not matter to the ring. */
  lemma LinkedFrame(mem: map<int, Header>, fl: seq<Chunk>, p: int, h: Header)
    requires Linked(mem, fl) && forall i :: 0 <= i < |fl| ==> fl[i].addr != p
    ensures Linked(mem[p := h], fl)
  {
    var mem' := mem[p := h];
    forall i | 0 <= i < |fl| ensures LinkAt(mem', fl, i) {
      assert LinkAt(mem, fl, i);
    }
  }

  /** The one place in the ring where address bp belongs. */
  ghost predicate BelongsAfter(fl: seq<Chunk>, k: int, bp: int)
  {
    0 <= k < |fl| && fl[k].addr < bp && (k + 1 < |fl| ==> bp < fl[k + 1].addr)
  }

  lemma {:induction false} FindPlace(fl: seq<Chunk>, bp: int, n: int) returns (k: int)
    requires 1 <= n <= |fl| && fl[0].addr < bp
    requires n < |fl| ==> bp < fl[n].addr
    requires forall i :: 0 <= i < |fl| ==> fl[i].addr != bp
    ensures BelongsAfter(fl, k, bp)
    decreases n
  {
    if fl[n - 1].addr < bp {
      k := n - 1;
    } else {
      k := FindPlace(fl, bp, n - 1);
    }
  }

  /** An allocated block in its place in address order overlaps no free neighbour. */
  lemma PlaceFits(fl: seq<Chunk>, alloc: map<int, int>, arena: set<int>, k: int, bp: int)
    requires Ordered(fl) && Tiled(fl, alloc, arena) && bp in alloc && BelongsAfter(fl, k, bp)
    ensures FitsAfter(fl, k, Chunk(bp, alloc[bp]))
  {
    assert InAlloc(alloc, bp);
    assert fl[k].addr <= bp < fl[k].addr + fl[k].size ==> InFree(fl, bp);
    if k + 1 < |fl| {
      var q := fl[k + 1].addr;
      assert InFree(fl, q) by { assert fl[k + 1].addr <= q < fl[k + 1].addr + fl[k + 1].size; }
      assert bp <= q < bp + alloc[bp] ==> InAlloc(alloc, q);
    }
  }

  lemma NotListed(fl: seq<Chunk>, alloc: map<int, int>, arena: set<int>, bp: int)
    requires Ordered(fl) && Tiled(fl, alloc, arena) && bp in alloc && fl[0].addr !in arena
    ensures forall i :: 0 <= i < |fl| ==> fl[i].addr != bp
  {
    assert InAlloc(alloc, bp);
    forall i | 0 <= i < |fl| ensures fl[i].addr != bp {
      assert i > 0 ==> InFree(fl, fl[i].addr) by {
        if i > 0 {
          assert fl[i].addr <= fl[i].addr < fl[i].addr + fl[i].size;
        }
      }
    }
  }

  /** At fl[i], the test that ends free's walk says: here. */
  lemma WalkTest(fl: seq<Chunk>, i: int, k: int, bp: int)
    requires Ordered(fl) && 0 <= i < |fl| && BelongsAfter(fl, k, bp)
    ensures var p, next := fl[i].addr, fl[Next(i, |fl|)].addr;
      ((bp > p && bp < next) || (p >= next && (bp > p || bp < next))) <==> i == k
  {
    assert i < k ==> fl[i + 1].addr <= fl[k].addr;
    assert i > k ==> fl[k + 1].addr <= fl[i].addr;
  }

  /** bp's header once free has looked at the block after it. */
  function AfterNext(mem: map<int, Header>, p: int, bp: int): map<int, Header>
    requires p in mem && bp in mem && mem[p].ptr in mem
  {
    var next := mem[p].ptr;
    if bp + mem[bp].size == next then mem[bp := Header(mem[next].ptr, mem[bp].size + mem[next].size)]
    else mem[bp := mem[bp].(ptr := next)]
  }

  /** p's header once free has looked at the block before bp. */
  function AfterPrev(mem: map<int, Header>, p: int, bp: int): map<int, Header>
    requires p in mem && bp in mem
  {
    if p + mem[p].size == bp then mem[p := Header(mem[bp].ptr, mem[p].size + mem[bp].size)]
    else mem[p := mem[p].(ptr := bp)]
  }

  /** The two header updates of free relink the ring as Insert says. */
  lemma FreeLinks(mem: map<int, Header>, fl: seq<Chunk>, k: int, b: Chunk)
    requires Ordered(fl) && FitsAfter(fl, k, b) && Linked(mem, fl)
    requires b.addr in mem && mem[b.addr].size == b.size
    requires forall i :: 0 <= i < |fl| ==> fl[i].addr != b.addr
    ensures fl[k].addr in mem && mem[fl[k].addr].ptr in mem
    ensures Linked(AfterPrev(AfterNext(mem, fl[k].addr, b.addr), fl[k].addr, b.addr), Insert(fl, k, b))
  {
    hide Put, Join, Insert, AfterNext, AfterPrev, NearlyOrdered;
    assert LinkAt(mem, fl, k) && LinkAt(mem, fl, Next(k, |fl|));
    var r, r1, memB := FreeLinksNext(mem, fl, k, b);
    FreeLinksPrev(mem, memB, fl, k, b, r, r1);
  }

  lemma FreeLinksNext(mem: map<int, Header>, fl: seq<Chunk>, k: int, b: Chunk)
    returns (r: seq<Chunk>, r1: seq<Chunk>, memB: map<int, Header>)
    requires Ordered(fl) && FitsAfter(fl, k, b) && Linked(mem, fl)
    requires LinkAt(mem, fl, k) && LinkAt(mem, fl, Next(k, |fl|)) && mem[fl[k].addr].ptr in mem
    requires b.addr in mem && mem[b.addr].size == b.size
    requires forall i :: 0 <= i < |fl| ==> fl[i].addr != b.addr
    ensures r == Put(fl, k, b) && r1 == Join(r, k + 1) && NearlyOrdered(r1, k, k + 1) && Linked(memB, r1)
    ensures var next := mem[fl[k].addr].ptr;
      var memA := mem[b.addr := Header(next, b.size)][fl[k].addr := Header(b.addr, fl[k].size)];
      memB == if Touch(r, k + 1) then memA[b.addr := Header(mem[next].ptr, b.size + mem[next].size)] else memA
  {
    hide Put, Join, Linked, NearlyOrdered, Ordered, Rising;
    var p := fl[k].addr;
    var next := mem[p].ptr;
    r := PutAt(fl, k, b);
    PutNearlyOrdered(fl, k, b);
    NearlyRising(r, k, k + 2);
    var memA := mem[b.addr := Header(next, b.size)][p := Header(b.addr, fl[k].size)];
    PutLinked(mem, fl, k, b);
    r1 := JoinAt(r, k + 1);
    JoinNearlyOrdered(r, k + 1);
    memB := memA;
    if Touch(r, k + 1) {
      LinkedAt(memA, r, k + 2);
      Apart(r, k, k + 2);
      JoinLinked(memA, r, k + 1);
      memB := memA[b.addr := Header(mem[next].ptr, b.size + mem[next].size)];
    }
  }

  lemma FirstBelow(fl: seq<Chunk>, k: int)
    requires Ordered(fl) && 0 <= k < |fl|
    ensures fl[0].addr <= fl[k].addr
  {
  }

  lemma LinkedAt(mem: map<int, Header>, fl: seq<Chunk>, i: int)
    requires Linked(mem, fl) && 0 <= i < |fl|
    ensures LinkAt(mem, fl, i)
  {
  }

  lemma FreeLinksPrev(mem: map<int, Header>, memB: map<int, Header>, fl: seq<Chunk>, k: int, b: Chunk, r: seq<Chunk>,
                      r1: seq<Chunk>)
    requires Ordered(fl) && FitsAfter(fl, k, b) && Linked(mem, fl) && LinkAt(mem, fl, k)
    requires mem[fl[k].addr].ptr in mem && b.addr in mem && mem[b.addr].size == b.size
    requires r == Put(fl, k, b) && r1 == Join(r, k + 1) && NearlyOrdered(r1, k, k + 1) && Linked(memB, r1)
    requires var next := mem[fl[k].addr].ptr;
      var memA := mem[b.addr := Header(next, b.size)][fl[k].addr := Header(b.addr, fl[k].size)];
      memB == if Touch(r, k + 1) then memA[b.addr := Header(mem[next].ptr, b.size + mem[next].size)] else memA
    ensures Linked(AfterPrev(AfterNext(mem, fl[k].addr, b.addr), fl[k].addr, b.addr), Insert(fl, k, b))
  {
    hide Put, Join, NearlyOrdered, Ordered, Rising, Linked;
    var p := fl[k].addr;
    var _ := PutAt(fl, k, b);
    var _ := JoinAt(r, k + 1);
    var r2 := JoinAt(r1, k);
    NearlyRising(r1, k, k + 1);
    Apart(r1, k, k + 1);
    assert r1[k] == fl[k] && r1[k + 1].addr == b.addr;
    FirstBelow(fl, k);
    assert Touch(r, k + 1) <==> b.addr + b.size == mem[p].ptr;
    var mem2 := AfterPrev(AfterNext(mem, p, b.addr), p, b.addr);
    if Touch(r1, k) {
      LinkedAt(memB, r1, k + 1);
      JoinLinked(memB, r1, k);
      assert mem2 == memB[p := Header(memB[b.addr].ptr, r1[k].size + r1[k + 1].size)];
    } else {
      assert mem2 == memB;
    }
  }

  /** Units fresh from sbrk count as one allocated block until they are freed into the list. */
  lemma GrowTiled(fl: seq<Chunk>, alloc: map<int, int>, arena: set<int>, p: int, n: int)
    requires Tiled(fl, alloc, arena) && n > 0 && forall u :: p <= u < p + n ==> u !in arena
    ensures p !in alloc && Tiled(fl, alloc[p := n], arena + Span(p, n))
  {
    hide InFree;
    assert p !in alloc by { assert p in alloc ==> InAlloc(alloc, p); }
    forall u ensures InAlloc(alloc[p := n], u) <==> InAlloc(alloc, u) || p <= u < p + n {
      AllocWith(alloc, p, n, u);
    }
    forall a | a in alloc ensures a + alloc[a] <= p || p + n <= a {
      ApartFrom(alloc, a, p, n);
    }
  }

  ghost function Span(p: int, n: int): (r: set<int>)
    ensures forall u :: u in r <==> p <= u < p + n
    decreases n
  {
    if n <= 0 then {} else Span(p, n - 1) + {p + n - 1}
  }

  /** Handing out part of fl[k], not all of it: only that header's size changes. */
  lemma ShrinkLinked(mem: map<int, Header>, fl: seq<Chunk>, k: int, n: int)
    requires Ordered(fl) && Linked(mem, fl) && 1 <= k < |fl| && LinkAt(mem, fl, k) && 0 < n < fl[k].size
    ensures Linked(mem[fl[k].addr := mem[fl[k].addr].(size := fl[k].size - n)], Take(fl, k, n))
  {
    var r := TakeAt(fl, k, n);
    var mem' := mem[fl[k].addr := mem[fl[k].addr].(size := fl[k].size - n)];
    forall j | 0 <= j < |r| ensures LinkAt(mem', r, j) {
      assert LinkAt(mem, fl, j);
    }
  }

  lemma NotInTail(fl: seq<Chunk>, k: int, n: int)
    requires Ordered(fl) && 1 <= k < |fl| && 0 < n < fl[k].size
    ensures forall i :: 0 <= i < |fl| ==> fl[i].addr != fl[k].addr + fl[k].size - n
  {
    forall i | 0 <= i < |fl| ensures fl[i].addr != fl[k].addr + fl[k].size - n {
      assert i < k ==> fl[i].addr + fl[i].size < fl[k].addr;
      assert i < k ==> fl[i].size >= 0;
    }
  }

  // ---------------------------------------------------------------- sizes

  /** malloc's request in units: the header and the payload rounded up, in 32-bit arithmetic. */
  function Units(nbytes: int): (r: int)
    ensures r >= 1
  {
    (nbytes + 7) % UINT_RANGE / 8 + 1
  }

  /** The int that sbrk is passed for n units. */
  function SbrkBytes(n: int): int
  {
    var w := n * 8 % UINT_RANGE;
    if w < UINT_RANGE / 2 then w else w - UINT_RANGE
  }

  /** No smaller block would do. */
  lemma SizesTight(nbytes: int)
    requires 0 <= nbytes <= UINT_RANGE - 8
    ensures 8 * (Units(nbytes) - 2) < nbytes <= 8 * (Units(nbytes) - 1)
  {
  }

  /** A block of Units(nbytes) holds nbytes after its header, and sbrk can be asked for it,
      for exactly the requests up to 2^31 - 16 bytes. */
  lemma SizesPlain(nbytes: int)
    requires 0 <= nbytes < UINT_RANGE
    ensures (Units(nbytes) - 1) * 8 >= nbytes && SbrkBytes(Units(nbytes)) == Units(nbytes) * 8
      <==> nbytes <= UINT_RANGE / 2 - 16
  {
  }

  /** Some free block contains the n units from bp. */
  ghost predicate HasChunk(fl: seq<Chunk>, bp: int, n: int)
  {
    exists i :: 0 <= i < |fl| && fl[i].addr <= bp && bp + n <= fl[i].addr + fl[i].size
  }

  lemma InsertHolds(fl: seq<Chunk>, k: int, b: Chunk)
    requires Ordered(fl) && FitsAfter(fl, k, b)
    ensures HasChunk(Insert(fl, k, b), b.addr, b.size)
    ensures exists f :: 0 <= f < |Insert(fl, k, b)| && Insert(fl, k, b)[f].addr == fl[k].addr
  {
    hide Put, Join;
    var r := PutAt(fl, k, b);
    PutNearlyOrdered(fl, k, b);
    var r1 := JoinAt(r, k + 1);
    assert r1[k] == fl[k] && r1[k + 1].addr == b.addr && r1[k + 1].size >= b.size;
    var r2 := JoinAt(r1, k);
    assert r2[k].addr == fl[k].addr;
    var at := if Touch(r1, k) then k else k + 1;
    assert r2[at].addr <= b.addr && b.addr + b.size <= r2[at].addr + r2[at].size;
  }

  /** The allocator's invariant: one address-ordered ring from base, and an exact tiling. */
  ghost predicate RingOf(base: int, mem: map<int, Header>, freep: int, fl: seq<Chunk>, alloc: map<int, int>,
                         arena: set<int>)
  {
    && base > 0 && Ordered(fl) && fl[0].addr == base && Linked(mem, fl)
    && (exists f :: 0 <= f < |fl| && fl[f].addr == freep)
    && Tiled(fl, alloc, arena)
    && (forall a :: a in alloc ==> a in mem && mem[a].size == alloc[a])
    && (forall u :: u in arena ==> u > base)
  }

  lemma FreeKeeps(base: int, mem: map<int, Header>, freep: int, fl: seq<Chunk>, alloc: map<int, int>, arena: set<int>,
                  k: int, bp: int)
    requires RingOf(base, mem, freep, fl, alloc, arena) && bp in alloc && BelongsAfter(fl, k, bp)
    ensures fl[k].addr in mem && mem[fl[k].addr].ptr in mem && bp in mem
    ensures var mem' := AfterPrev(AfterNext(mem, fl[k].addr, bp), fl[k].addr, bp);
      RingOf(base, mem', fl[k].addr, Insert(fl, k, Chunk(bp, alloc[bp])), alloc - {bp}, arena)
  {
    hide Tiled, Insert, InAlloc, Linked;
    var b := Chunk(bp, alloc[bp]);
    PlaceFits(fl, alloc, arena, k, bp);
    forall a | a in alloc ensures forall i :: 0 <= i < |fl| ==> fl[i].addr != a {
      NotListed(fl, alloc, arena, a);
    }
    FreeLinks(mem, fl, k, b);
    FreeTiled(fl, alloc, arena, k, bp);
    InsertOrdered(fl, k, b);
    InsertHolds(fl, k, b);
  }

  lemma InsertHasChunk(base: int, mem: map<int, Header>, freep: int, fl: seq<Chunk>, alloc: map<int, int>,
                       arena: set<int>, k: int, bp: int)
    requires RingOf(base, mem, freep, fl, alloc, arena) && bp in alloc && BelongsAfter(fl, k, bp)
    ensures mem[bp].size == alloc[bp] && HasChunk(Insert(fl, k, Chunk(bp, alloc[bp])), bp, alloc[bp])
  {
    PlaceFits(fl, alloc, arena, k, bp);
    InsertHolds(fl, k, Chunk(bp, alloc[bp]));
  }

  /** malloc unlinks a block of the exact size. */
  lemma TakeWhole(base: int, mem: map<int, Header>, freep: int, fl: seq<Chunk>, alloc: map<int, int>, arena: set<int>,
                  k: int)
    requires RingOf(base, mem, freep, fl, alloc, arena) && 1 <= k < |fl|
    requires LinkAt(mem, fl, k) && LinkAt(mem, fl, k - 1)
    ensures var p, prev, n := fl[k].addr, fl[k - 1].addr, fl[k].size;
      p !in alloc &&
      RingOf(base, mem[prev := mem[prev].(ptr := mem[p].ptr)], prev, Take(fl, k, n), alloc[p := n], arena)
  {
    hide Tiled, Take, Linked;
    var n := fl[k].size;
    TakeOrdered(fl, k, n);
    TakeLinked(mem, fl, k);
    TakeTiled(fl, alloc, arena, k, n);
    forall a | a in alloc ensures a != fl[k - 1].addr && a != fl[k].addr {
      NotListed(fl, alloc, arena, a);
    }
    PrevListed(fl, k, n);
  }

  lemma PrevListed(fl: seq<Chunk>, k: int, n: int)
    requires 1 <= k < |fl|
    ensures exists f :: 0 <= f < |Take(fl, k, n)| && Take(fl, k, n)[f].addr == fl[k - 1].addr
  {
    var r := TakeAt(fl, k, n);
    assert r[k - 1].addr == fl[k - 1].addr;
  }

  /** malloc takes the tail of a larger block and gives it a header. */
  lemma TakeTail(base: int, mem: map<int, Header>, freep: int, fl: seq<Chunk>, alloc: map<int, int>, arena: set<int>,
                 k: int, n: int, h: Header)
    requires RingOf(base, mem, freep, fl, alloc, arena) && 1 <= k < |fl| && 0 < n < fl[k].size && h.size == n
    requires LinkAt(mem, fl, k)
    ensures var p := fl[k].addr;
      var q := p + fl[k].size - n;
      q !in alloc && RingOf(base, mem[p := mem[p].(size := fl[k].size - n)][q := h],
                            fl[k - 1].addr, Take(fl, k, n), alloc[q := n], arena)
  {
    hide Tiled, Take, Linked;
    var p := fl[k].addr;
    var q := p + fl[k].size - n;
    TakeOrdered(fl, k, n);
    ShrinkLinked(mem, fl, k, n);
    TailFrame(mem[p := mem[p].(size := fl[k].size - n)], fl, k, n, h);
    TakeTiled(fl, alloc, arena, k, n);
    forall a | a in alloc ensures a != p && a != q {
      NotListed(fl, alloc, arena, a);
    }
    PrevListed(fl, k, n);
  }

  lemma TailFrame(mem: map<int, Header>, fl: seq<Chunk>, k: int, n: int, h: Header)
    requires Ordered(fl) && 1 <= k < |fl| && 0 < n < fl[k].size && Linked(mem, Take(fl, k, n))
    ensures Linked(mem[fl[k].addr + fl[k].size - n := h], Take(fl, k, n))
  {
    hide Linked, Take;
    NotInTail(fl, k, n);
    var r := TakeAt(fl, k, n);
    LinkedFrame(mem, r, fl[k].addr + fl[k].size - n, h);
  }

  /** Every free block large enough is met from fl[i] on before the walk is past fl[f]. */
  ghost predicate Ahead(fl: seq<Chunk>, i: int, f: int, n: int)
  {
    forall j :: 0 <= j < |fl| && fl[j].size >= n ==> Steps(i, j, |fl|) <= Steps(i, f, |fl|)
  }

  ghost predicate Fits(fl: seq<Chunk>, n: int)
  {
    exists j :: 0 <= j < |fl| && fl[j].size >= n
  }

  lemma AheadStep(fl: seq<Chunk>, i: int, f: int, n: int)
    requires 0 <= i < |fl| && 0 <= f < |fl| && Ahead(fl, i, f, n) && fl[i].size < n
    ensures i == f ==> !Fits(fl, n)
    ensures i != f ==> Ahead(fl, Next(i, |fl|), f, n) && Steps(Next(i, |fl|), f, |fl|) < Steps(i, f, |fl|)
  {
  }

  lemma AheadAll(fl: seq<Chunk>, f: int, n: int)
    requires 0 <= f < |fl|
    ensures Ahead(fl, Next(f, |fl|), f, n)
  {
  }

  /** fl[k] is the first block from fl[f]'s successor on, round the ring, that has n units. */
  ghost predicate NextFit(fl: seq<Chunk>, f: int, n: int, k: int)
  {
    && 0 <= f < |fl| && 0 <= k < |fl| && fl[k].size >= n
    && forall j :: 0 <= j < |fl| && fl[j].size >= n ==> Steps(Next(f, |fl|), k, |fl|) <= Steps(Next(f, |fl|), j, |fl|)
  }

  /** What malloc does when a block fits: the end of the next fit is handed out, and the next search starts there. */
  ghost predicate TakesNextFit(fl: seq<Chunk>, freep: int, n: int, ap: int, freep': int)
  {
    exists f, k ::
      && NextFit(fl, f, n, k) && fl[f].addr == freep && k > 0
      && ap == fl[k].addr + fl[k].size - n + 1 && freep' == fl[k - 1].addr
  }

  /** For a request of n units, the list is as it was. */
  ghost predicate Alike(fl0: seq<Chunk>, freep0: int, fl: seq<Chunk>, freep: int, n: int)
  {
    Fits(fl0, n) == Fits(fl, n) && (Fits(fl, n) ==> fl == fl0 && freep == freep0)
  }

  lemma AlikeSelf(fl: seq<Chunk>, freep: int, n: int)
    ensures Alike(fl, freep, fl, freep, n)
  {
  }

  lemma AlikeFits(fl0: seq<Chunk>, freep0: int, fl: seq<Chunk>, freep: int, n: int)
    requires Alike(fl0, freep0, fl, freep, n)
    ensures Fits(fl0, n) == Fits(fl, n)
  {
  }

  /** The walk from fl[f] has passed no such block, so the one it has come to is the first. */
  lemma AheadFirst(fl0: seq<Chunk>, freep0: int, fl: seq<Chunk>, i: int, f: int, n: int)
    requires 0 < i < |fl| && 0 <= f < |fl| && Ahead(fl, i, f, n) && fl[i].size >= n
    requires Alike(fl0, freep0, fl, fl[f].addr, n)
    ensures Fits(fl0, n) && TakesNextFit(fl0, freep0, n, fl[i].addr + fl[i].size - n + 1, fl[i - 1].addr)
  {
    assert Fits(fl, n);
    assert NextFit(fl, f, n, i);
  }

  lemma FitsAt(fl: seq<Chunk>, i: int, n: int)
    requires Ordered(fl) && 0 <= i < |fl| && fl[i].size >= n > 0
    ensures i >= 1 && Fits(fl, n)
  {
  }

  lemma HasFits(fl: seq<Chunk>, bp: int, m: int, n: int)
    requires HasChunk(fl, bp, m) && n <= m
    ensures Fits(fl, n)
  {
    var i :| 0 <= i < |fl| && fl[i].addr <= bp && bp + m <= fl[i].addr + fl[i].size;
    assert fl[i].size >= n;
  }

  /** The ring malloc starts with: the header base alone. */
  lemma FirstRing(mem: map<int, Header>, base: int, n: int)
    requires base > 0 && base in mem && mem[base] == Header(base, 0) && n > 0
    ensures RingOf(base, mem, base, [Chunk(base, 0)], map[], {})
    ensures forall freep0 :: Alike([], freep0, [Chunk(base, 0)], base, n)
  {
    var fl := [Chunk(base, 0)];
    assert fl[0].addr == base;
  }

  class Heap {
    const base: int
    var mem: map<int, Header>
    var freep: int                 // 0 until the first malloc
    ghost var fl: seq<Chunk>
    ghost var alloc: map<int, int> // allocated blocks and their sizes
    ghost var arena: set<int>      // units obtained from sbrk

    ghost predicate Valid()
      reads this
    {
      && base > 0
      && if freep == 0 then fl == [] && alloc == map[] && arena == {} else Ring()
    }

    ghost predicate Ring()
      reads this
    {
      RingOf(base, mem, freep, fl, alloc, arena)
    }

    constructor (b: int)
      requires b > 0
      ensures Valid() && base == b && alloc == map[] && arena == {}
    {
      base, mem, freep := b, map[], 0;
      fl, alloc, arena := [], map[], {};
    }

    /** free's walk round the ring: it stops, at the place where bp belongs in address order. */
    method Walk(bp: int) returns (p: int, ghost k: int)
      requires Ring() && bp in alloc
      ensures BelongsAfter(fl, k, bp) && fl[k].addr == p
      ensures exists j :: BelongsAfter(fl, j, bp) && p == fl[j].addr
    {
      hide Tiled;
      ghost var n := |fl|;
      BlockAboveBase(bp);
      NotListed(fl, alloc, arena, bp);
      k := FindPlace(fl, bp, n);
      p := freep;
      ghost var i :| 0 <= i < n && fl[i].addr == p;
      assert LinkAt(mem, fl, i);
      WalkTest(fl, i, k, bp);
      while !(bp > p && bp < mem[p].ptr)
        invariant 0 <= i < n && fl[i].addr == p && LinkAt(mem, fl, i)
        decreases Steps(i, k, n)
      {
        WalkTest(fl, i, k, bp);
        if p >= mem[p].ptr && (bp > p || bp < mem[p].ptr) {
          break;
        }
        p := mem[p].ptr;
        i := Next(i, n);
        assert LinkAt(mem, fl, i);
      }
      WalkTest(fl, i, k, bp);
    }

    lemma BlockAboveBase(bp: int)
      requires Ring() && bp in alloc
      ensures bp > base && bp in arena && base !in arena
    {
      assert InAlloc(alloc, bp);
    }

    /** Give back the block whose payload starts at ap. */
    method Free(ap: int)
      requires Ring() && ap - 1 in alloc
      modifies this
      ensures Ring() && alloc == old(alloc) - {ap - 1} && arena == old(arena)
      ensures HasChunk(fl, ap - 1, old(alloc)[ap - 1])
      ensures exists j :: BelongsAfter(old(fl), j, ap - 1) && freep == old(fl)[j].addr
    {
      hide RingOf, Insert, HasChunk;
      var bp := ap - 1;
      var p;
      ghost var k;
      p, k := Walk(bp);
      FreeKeeps(base, mem, freep, fl, alloc, arena, k, bp);
      ghost var b := Chunk(bp, alloc[bp]);
      InsertHasChunk(base, mem, freep, fl, alloc, arena, k, bp);
      var next := mem[p].ptr;
      if bp + mem[bp].size == next {
        mem := mem[bp := Header(mem[next].ptr, mem[bp].size + mem[next].size)];
      } else {
        mem := mem[bp := mem[bp].(ptr := next)];
      }
      if p + mem[p].size == bp {
        mem := mem[p := Header(mem[bp].ptr, mem[p].size + mem[bp].size)];
      } else {
        mem := mem[p := mem[p].(ptr := bp)];
      }
      freep := p;
      fl, alloc := Insert(fl, k, b), alloc - {bp};
    }

    /** sbrk's answer brk: refused, or new memory above everything so far. */
    ghost predicate Fresh(brk: int, n: int)
      reads this
    {
      brk == -1 || (brk > base && forall u :: brk <= u < brk + n ==> u !in arena)
    }

    /** Ask sbrk for at least nu units and free them into the list. */
    method Morecore(nu: int, brk: int) returns (p: int)
      requires Ring() && nu > 0 && Fresh(brk, Ask(nu))
      modifies this
      ensures Ring() && alloc == old(alloc) && (p == 0 <==> brk == -1)
      ensures brk == -1 ==> fl == old(fl) && freep == old(freep) && arena == old(arena)
      ensures brk != -1 ==> p == freep && arena == old(arena) + Span(brk, Ask(nu)) && HasChunk(fl, brk, Ask(nu))
    {
      hide Tiled, HasChunk;
      var n := nu;
      if n < 4096 {
        n := 4096;
      }
      if brk == -1 {
        return 0;
      }
      GrowTiled(fl, alloc, arena, brk, n);
      AboveList(brk, n);
      LinkedFrame(mem, fl, brk, Header(0, n));
      mem := mem[brk := Header(0, n)];
      alloc, arena := alloc[brk := n], arena + Span(brk, n);
      Free(brk + 1);
      assert alloc == old(alloc);
      p := freep;
    }

    /** The walk is back where it started: after morecore it starts again, and now some block fits. */
    method Refill(nu: int, brk: int) returns (p: int, ghost f: int)
      requires Ring() && nu > 0 && Fresh(brk, Ask(nu))
      modifies this
      ensures Ring() && alloc == old(alloc) && (p == 0 <==> brk == -1)
      ensures arena == old(arena) + if brk != -1 then Span(brk, Ask(nu)) else {}
      ensures freep in mem && freep != 0 && 0 <= f < |fl| && Walking(f, Next(f, |fl|), freep, mem[freep].ptr, nu)
      ensures brk != -1 ==> p == freep && Fits(fl, nu)
    {
      hide RingOf, Ordered, HasChunk, Ahead, Fits, Ask, Walking;
      p := Morecore(nu, brk);
      f := WalkStart(nu);
      if p != 0 {
        HasFits(fl, brk, Ask(nu), nu);
      }
    }

    /** Allocate nbytes; brk is what sbrk would answer.  The payload follows the block's header. */
    method Malloc(nbytes: int, brk: int) returns (ap: int, ghost calls: int)
      requires Valid() && 0 <= nbytes <= UINT_RANGE / 2 - 16 && Fresh(brk, Ask(Units(nbytes)))
      modifies this
      ensures Valid() && freep != 0
      ensures calls == if Fits(old(fl), Units(nbytes)) then 0 else 1
      ensures ap == 0 <==> calls == 1 && brk == -1
      ensures ap == 0 ==> alloc == old(alloc)
      ensures ap != 0 ==> ap - 1 !in old(alloc) && alloc == old(alloc)[ap - 1 := Units(nbytes)]
      ensures arena == old(arena) + if calls == 1 && brk != -1 then Span(brk, Ask(Units(nbytes))) else {}
      ensures calls == 0 ==> TakesNextFit(old(fl), old(freep), Units(nbytes), ap, freep)
    {
      hide RingOf, Ordered, HasChunk, Ahead, Fits, Ask, Units, TakesNextFit, Alike, Walking, Steps;
      var nunits := Units(nbytes);
      var prevp := freep;
      if prevp == 0 {
        mem := mem[base := Header(base, 0)];
        freep, prevp := base, base;
        fl := [Chunk(base, 0)];
        FirstRing(mem, base, nunits);
      } else {
        AlikeSelf(fl, freep, nunits);
      }
      ghost var f := WalkStart(nunits);
      var p := mem[prevp].ptr;
      ghost var i := Next(f, |fl|);
      calls := 0;
      while true
        invariant Walking(f, i, prevp, p, nunits) && alloc == old(alloc) && freep != 0
        invariant calls == 0 ==> Alike(old(fl), old(freep), fl, freep, nunits) && Fresh(brk, Ask(nunits))
        invariant calls == 1 ==> !Fits(old(fl), nunits) && Fits(fl, nunits) && brk != -1
        invariant 0 <= calls <= 1
        invariant arena == old(arena) + if calls == 1 then Span(brk, Ask(nunits)) else {}
        decreases 1 - calls, Steps(i, f, |fl|)
      {
        WalkStep(f, i, prevp, p, nunits);
        if mem[p].size >= nunits {
          if calls == 0 { AheadFirst(old(fl), old(freep), fl, i, f, nunits); }
          ap := Carve(p, prevp, nunits, i);
          return;
        }
        if p == freep {
          if calls == 0 { AlikeFits(old(fl), old(freep), fl, freep, nunits); }
          calls := 1;
          p, f := Refill(nunits, brk);
          if p == 0 {
            return 0, calls;
          }
          i := f;
        }
        prevp := p;
        p := mem[p].ptr;
        i := Next(i, |fl|);
      }
    }

    /** malloc's walk started at freep, which is fl[f], and has come to p, which is fl[i]; prevp is before it. */
    ghost predicate Walking(f: int, i: int, prevp: int, p: int, n: int)
      reads this
    {
      && Ring() && 0 <= f < |fl| && fl[f].addr == freep && 0 <= i < |fl| && fl[i].addr == p && Ahead(fl, i, f, n)
      && var h := if i == 0 then |fl| - 1 else i - 1;
         fl[h].addr == prevp
    }

    lemma WalkStart(n: int) returns (f: int)
      requires Ring()
      ensures 0 <= f < |fl| && fl[f].addr == freep && freep in mem && freep != 0
      ensures Walking(f, Next(f, |fl|), freep, mem[freep].ptr, n)
    {
      f :| 0 <= f < |fl| && fl[f].addr == freep;
      AtIndex(f);
      AheadAll(fl, f, n);
    }

    lemma WalkStep(f: int, i: int, prevp: int, p: int, n: int)
      requires Walking(f, i, prevp, p, n) && n > 0
      ensures Ring() && p in mem && 0 <= f < |fl| && 0 <= i < |fl| && Ahead(fl, i, f, n)
      ensures fl[f].addr == freep && fl[i].addr == p && mem[p].size == fl[i].size
      ensures mem[p].size >= n ==> 1 <= i && fl[i - 1].addr == prevp && LinkAt(mem, fl, i) && LinkAt(mem, fl, i - 1)
      ensures mem[p].size >= n ==> p > 0 && prevp > 0
      ensures mem[p].size < n && p == freep ==> !Fits(fl, n)
      ensures mem[p].size < n && p != freep ==> Walking(f, Next(i, |fl|), p, mem[p].ptr, n)
      ensures mem[p].size < n && p != freep ==> 0 <= Steps(Next(i, |fl|), f, |fl|) < Steps(i, f, |fl|)
    {
      hide RingOf, Ahead, Fits;
      AtIndex(i);
      if mem[p].size >= n {
        FitsAt(fl, i, n);
        AtIndex(i - 1);
      } else {
        OneIndex(i, f);
        AheadStep(fl, i, f, n);
      }
    }

    /** malloc's found block p, large enough: unlink it or take its tail. */
    method Carve(block: int, prevp: int, nunits: int, ghost k: int) returns (ap: int)
      requires Ring() && 1 <= k < |fl| && 0 < nunits <= fl[k].size
      requires fl[k].addr == block && fl[k - 1].addr == prevp && LinkAt(mem, fl, k) && LinkAt(mem, fl, k - 1)
      modifies this
      ensures Ring() && freep == prevp && arena == old(arena)
      ensures ap - 1 == block + old(fl)[k].size - nunits
      ensures ap - 1 !in old(alloc) && alloc == old(alloc)[ap - 1 := nunits]
    {
      hide RingOf, Take;
      var p := block;
      if mem[p].size == nunits {
        TakeWhole(base, mem, freep, fl, alloc, arena, k);
        mem := mem[prevp := mem[prevp].(ptr := mem[p].ptr)];
      } else {
        TakeTail(base, mem, freep, fl, alloc, arena, k, nunits, Header(0, nunits));
        mem := mem[p := mem[p].(size := mem[p].size - nunits)];
        p := p + mem[p].size;
        mem := mem[p := Header(0, nunits)];
      }
      freep := prevp;
      fl, alloc := Take(fl, k, nunits), alloc[p := nunits];
      ap := p + 1;
    }

    lemma AtIndex(i: int)
      requires Ring() && 0 <= i < |fl|
      ensures LinkAt(mem, fl, i) && Ordered(fl) && fl[i].addr > 0
    {
      assert LinkAt(mem, fl, i);
      assert i > 0 ==> fl[0].addr + fl[0].size < fl[i].addr;
    }

    lemma OneIndex(i: int, j: int)
      requires Ring() && 0 <= i < |fl| && 0 <= j < |fl|
      ensures fl[j].addr == fl[i].addr <==> i == j
    {
      assert j < i ==> fl[j].addr + fl[j].size < fl[i].addr;
      assert i < j ==> fl[i].addr + fl[i].size < fl[j].addr;
    }

    lemma AboveList(brk: int, n: int)
      requires Ring() && n > 0 && brk > base && forall u :: brk <= u < brk + n ==> u !in arena
      ensures forall i :: 0 <= i < |fl| ==> fl[i].addr != brk
    {
      forall i | 1 <= i < |fl| ensures fl[i].addr in arena {
        assert InFree(fl, fl[i].addr) by { assert fl[i].addr <= fl[i].addr < fl[i].addr + fl[i].size; }
      }
    }
  }

  function Ask(nu: int): (r: int)
    ensures r >= nu && r >= 4096 && (r == nu || r == 4096)
  {
    if nu < 4096 then 4096 else nu
  }
}
