/** The free bitmap counts exactly the metadata blocks and the blocks that inodes name. */
module FsCount {
  import opened Blocks
  import opened FsLayout
  import opened FsProof

  /** The slots in use: inode, slot number. */
  ghost function SlotsInUse(blk: seq<Block>, ino: seq<Inode>): set<(int, int)>
    requires Shaped(ino)
  {
    set i, k | 0 <= i < |ino| && 0 <= k < NSLOT && Ref(blk, ino[i], k) != 0 :: (i, k)
  }

  ghost function UsedBelow(sb: Super, blk: seq<Block>, n: int): set<int>
  {
    set b | 0 <= b < n && Used(sb, blk, b)
  }

  /** Two sets matched one to one have the same size. */
  lemma {:induction false} Matched(s: set<(int, int)>, u: set<int>, f: map<(int, int), int>)
    requires f.Keys == s
    requires forall p :: p in f ==> f[p] in u
    requires forall p, q :: p in f && q in f && f[p] == f[q] ==> p == q
    requires forall b :: b in u ==> exists p :: p in f && f[p] == b
    ensures |s| == |u|
    decreases s
  {
    if p :| p in s {
      var f' := f - {p};
      forall b | b in u - {f[p]} ensures exists q :: q in f' && f'[q] == b {
        var q :| q in f && f[q] == b;
        assert q in f' && f'[q] == b;
      }
      Matched(s - {p}, u - {f[p]}, f');
    } else {
      assert s == {};
      assert forall b :: b !in u;
      assert u == {};
    }
  }

  /** Where every block below n is marked, n blocks are. */
  lemma {:induction false} AllUsed(sb: Super, blk: seq<Block>, n: nat)
    requires forall b :: 0 <= b < n ==> Used(sb, blk, b)
    ensures |UsedBelow(sb, blk, n)| == n
  {
    hide Used;
    if n > 0 {
      AllUsed(sb, blk, n - 1);
      assert UsedBelow(sb, blk, n) == UsedBelow(sb, blk, n - 1) + {n - 1};
    } else {
      assert UsedBelow(sb, blk, n) == {};
    }
  }

  ghost function DataInUse(sb: Super, blk: seq<Block>): set<int>
  {
    set b | sb.datastart <= b < sb.size && Used(sb, blk, b)
  }

  /** Marked data blocks and slots in use match one to one. */
  lemma SlotsMatch(sb: Super, blk: seq<Block>, ino: seq<Inode>)
    requires Consistent(sb, blk, ino, {})
    ensures |SlotsInUse(blk, ino)| == |DataInUse(sb, blk)|
  {
    hide Used, Ref, NoHoles;
    var slots, data := SlotsInUse(blk, ino), DataInUse(sb, blk);
    var f := map p | p in slots :: Ref(blk, ino[p.0], p.1);
    forall b | b in data ensures exists p :: p in f && f[p] == b {
      assert Owned(blk, ino, b);
      var i, k :| 0 <= i < |ino| && 0 <= k < NSLOT && Ref(blk, ino[i], k) == b;
      assert (i, k) in slots && f[(i, k)] == b;
    }
    Matched(slots, data, f);
  }

  /** In a consistent file system the number of marked blocks is metadata plus slots in use. */
  lemma UsedCount(sb: Super, blk: seq<Block>, ino: seq<Inode>)
    requires Consistent(sb, blk, ino, {})
    ensures |UsedBelow(sb, blk, sb.size)| == sb.datastart + |SlotsInUse(blk, ino)|
  {
    hide Used, Ref, RefsUnique, RefsMarked, NoHoles, Owned;
    SlotsMatch(sb, blk, ino);
    AllUsed(sb, blk, sb.datastart);
    assert UsedBelow(sb, blk, sb.size) == UsedBelow(sb, blk, sb.datastart) + DataInUse(sb, blk);
    assert UsedBelow(sb, blk, sb.datastart) !! DataInUse(sb, blk);
  }
}
