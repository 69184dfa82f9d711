/**
Pipes (pipe.c).  A pipe's lock is held from one sleep, call or return to the next, so each such
stretch of pipewrite or piperead is one method here, and one step of PipeRuns.
*/
module Pipe {
  const PIPESIZE := 512
  const UINT := 0x1_0000_0000

  /** How a stretch of pipewrite or piperead ends: the call returns, it returns -1, or it sleeps. */
  datatype Outcome = Returned | Failed | Slept

  function Min(a: int, b: int): int
  {
    if a <= b then a else b
  }

  /** The part of struct pipe that holds the bytes; the counters count modulo 2^32. */
  datatype Ring = Ring(data: seq<char>, nread: int, nwrite: int)

  predicate Empty(r: Ring)
  {
    r.nread == r.nwrite
  }

  predicate Full(r: Ring)
  {
    r.nwrite == (r.nread + PIPESIZE) % UINT
  }

  /** data[nwrite++ % PIPESIZE] = c */
  function WithByte(r: Ring, c: char): Ring
    requires |r.data| == PIPESIZE
  {
    Ring(r.data[r.nwrite % PIPESIZE := c], r.nread, (r.nwrite + 1) % UINT)
  }

  /** Bytes i and on of buf go in until all are in or the ring is full; the ring then, and the bytes done. */
  function Fill(r: Ring, buf: seq<char>, i: int): (f: (Ring, int))
    requires |r.data| == PIPESIZE && 0 <= i <= |buf|
    ensures i <= f.1 <= |buf|
    decreases |buf| - i
  {
    if i == |buf| || Full(r) then (r, i) else Fill(WithByte(r, buf[i]), buf, i + 1)
  }

  /** The ring after at most n bytes have come out, and those bytes. */
  function Drain(r: Ring, n: int): (Ring, seq<char>)
    requires |r.data| == PIPESIZE
    decreases n
  {
    if n <= 0 || Empty(r) then (r, [])
    else
      var d := Drain(r.(nread := (r.nread + 1) % UINT), n - 1);
      (d.0, [r.data[r.nread % PIPESIZE]] + d.1)
  }

  /** The counters count, the bytes taken are a prefix of those stored, and the ring holds the rest. */
  ghost predicate Holds(r: Ring, stored: seq<char>, taken: seq<char>)
  {
    && |r.data| == PIPESIZE
    && taken <= stored && |stored| - |taken| <= PIPESIZE
    && r.nread == |taken| % UINT && r.nwrite == |stored| % UINT
    && forall k :: |taken| <= k < |stored| ==> r.data[k % PIPESIZE] == stored[k]
  }

  lemma Counters(r: Ring, stored: seq<char>, taken: seq<char>)
    requires Holds(r, stored, taken)
    ensures Empty(r) <==> |stored| == |taken|
    ensures Full(r) <==> |stored| == |taken| + PIPESIZE
    ensures r.nread % PIPESIZE == |taken| % PIPESIZE && r.nwrite % PIPESIZE == |stored| % PIPESIZE
  {
    Wrapped(|taken|, |stored|);
  }

  /** A byte put into a ring with room overwrites no unread byte. */
  lemma PutHolds(r: Ring, stored: seq<char>, taken: seq<char>, c: char)
    requires Holds(r, stored, taken) && !Full(r)
    ensures Holds(WithByte(r, c), stored + [c], taken)
  {
    Counters(r, stored, taken);
    forall k | |taken| <= k < |stored| ensures k % PIPESIZE != |stored| % PIPESIZE {
      Apart(k, |stored|);
    }
    CountOn(|stored|);
  }

  /** The byte that comes out is the oldest one not taken yet. */
  lemma GetHolds(r: Ring, stored: seq<char>, taken: seq<char>)
    requires Holds(r, stored, taken) && !Empty(r)
    ensures r.data[r.nread % PIPESIZE] == stored[|taken|]
    ensures Holds(r.(nread := (r.nread + 1) % UINT), stored, taken + [r.data[r.nread % PIPESIZE]])
  {
    Counters(r, stored, taken);
    CountOn(|taken|);
    assert r.data[|taken| % PIPESIZE] == stored[|taken|];
  }

  /** Fill stores in order what there is room for. */
  lemma {:induction false} FillHolds(r: Ring, stored: seq<char>, taken: seq<char>, buf: seq<char>, i: int)
    requires Holds(r, stored, taken) && 0 <= i <= |buf|
    ensures var f := Fill(r, buf, i);
      && f.1 == i + Min(|buf| - i, PIPESIZE - (|stored| - |taken|))
      && Holds(f.0, stored + buf[i..f.1], taken)
    decreases |buf| - i
  {
    Counters(r, stored, taken);
    if i == |buf| || Full(r) {
      assert stored + buf[i..i] == stored;
    } else {
      PutHolds(r, stored, taken, buf[i]);
      FillHolds(WithByte(r, buf[i]), stored + [buf[i]], taken, buf, i + 1);
      var j := Fill(r, buf, i).1;
      assert stored + [buf[i]] + buf[i + 1..j] == stored + buf[i..j];
    }
  }

  /** Drain takes the oldest bytes, in order. */
  lemma {:induction false} DrainHolds(r: Ring, stored: seq<char>, taken: seq<char>, n: int)
    requires Holds(r, stored, taken)
    ensures var d := Drain(r, n);
      && |d.1| == (if n < 0 then 0 else Min(n, |stored| - |taken|))
      && Holds(d.0, stored, taken + d.1)
    decreases n
  {
    Counters(r, stored, taken);
    if n <= 0 || Empty(r) {
      assert taken + [] == taken;
    } else {
      GetHolds(r, stored, taken);
      var c := r.data[r.nread % PIPESIZE];
      var rest := r.(nread := (r.nread + 1) % UINT);
      DrainHolds(rest, stored, taken + [c], n - 1);
      assert taken + [c] + Drain(rest, n - 1).1 == taken + Drain(r, n).1;
    }
  }

  /** The 32-bit counters tell empty from full although they wrap: 512 divides 2^32. */
  lemma Wrapped(r: int, w: int)
    requires 0 <= r <= w <= r + PIPESIZE
    ensures r % UINT == w % UINT <==> w == r
    ensures w % UINT == (r % UINT + PIPESIZE) % UINT <==> w == r + PIPESIZE
    ensures r % UINT % PIPESIZE == r % PIPESIZE && w % UINT % PIPESIZE == w % PIPESIZE
  {
    Folded(r);
    Folded(w);
  }

  lemma Folded(x: int)
    ensures x % UINT % PIPESIZE == x % PIPESIZE
  {
    assert x == x / UINT * UINT + x % UINT;
    assert x / UINT * UINT == x / UINT * 0x80_0000 * PIPESIZE;
  }

  lemma Apart(k: int, w: int)
    requires 0 <= k < w < k + PIPESIZE
    ensures k % PIPESIZE != w % PIPESIZE
  {
  }

  lemma CountOn(x: int)
    ensures (x + 1) % UINT == (x % UINT + 1) % UINT
  {
  }

  /** One turn of piperead's loop, with got read so far. */
  lemma DrainOne(r: Ring, n: int, got: seq<char>)
    requires |r.data| == PIPESIZE
    ensures n <= 0 || Empty(r) ==> Drain(r, n).0 == r && got + Drain(r, n).1 == got
    ensures n > 0 && !Empty(r) ==>
      var c, rest := r.data[r.nread % PIPESIZE], r.(nread := (r.nread + 1) % UINT);
      && Drain(r, n).0 == Drain(rest, n - 1).0
      && got + Drain(r, n).1 == got + [c] + Drain(rest, n - 1).1
  {
  }

  class Pipe {
    var data: array<char>
    var nread: int
    var nwrite: int
    var readopen: bool
    var writeopen: bool
    ghost var stored: seq<char> // all bytes ever stored
    ghost var taken: seq<char>  // all bytes ever read

    ghost function Bytes(): Ring
      reads this, data
    {
      Ring(data[..], nread, nwrite)
    }

    ghost predicate Valid()
      reads this, data
    {
      data.Length == PIPESIZE && Holds(Bytes(), stored, taken)
    }

    constructor ()
      ensures Valid() && fresh(data) && stored == [] && taken == [] && readopen && writeopen
      ensures nread == nwrite == 0
    {
      data := new char[PIPESIZE];
      nread, nwrite, readopen, writeopen := 0, 0, true, true;
      stored, taken := [], [];
    }

    /** pipewrite from byte start on, with the lock; woke says that it called wakeup(&p->nread). */
    method Write(addr: seq<char>, start: int, killed: bool) returns (i: int, out: Outcome, woke: bool)
      requires Valid() && 0 <= start <= |addr|
      modifies this, data
      ensures Valid() && data == old(data) && taken == old(taken) && readopen == old(readopen)
      ensures writeopen == old(writeopen)
      ensures (Bytes(), i) == Fill(old(Bytes()), addr, start)
      ensures i == start + Min(|addr| - start, PIPESIZE - (|old(stored)| - |taken|))
      ensures stored == old(stored) + addr[start..i]
      ensures out == if i == |addr| then Returned else if !readopen || killed then Failed else Slept
      ensures woke == !out.Failed?
    {
      hide Holds;
      i := start;
      FillHolds(Bytes(), stored, taken, addr, start);
      while i < |addr|
        invariant start <= i <= |addr| && Valid() && data == old(data)
        invariant taken == old(taken) && readopen == old(readopen) && writeopen == old(writeopen)
        invariant stored == old(stored) + addr[start..i]
        invariant Fill(Bytes(), addr, i) == Fill(old(Bytes()), addr, start)
      {
        if nwrite == (nread + PIPESIZE) % UINT {
          if !readopen || killed {
            return i, Failed, false;
          }
          return i, Slept, true;
        }
        Put(addr[i]);
        assert old(stored) + addr[start..i] + [addr[i]] == old(stored) + addr[start..i + 1];
        i := i + 1;
      }
      out, woke := Returned, true;
    }

    /** data[nwrite++ % PIPESIZE] = c */
    method Put(c: char)
      requires Valid() && !Full(Bytes())
      modifies this, data
      ensures Valid() && data == old(data) && stored == old(stored) + [c] && Bytes() == WithByte(old(Bytes()), c)
      ensures taken == old(taken) && readopen == old(readopen) && writeopen == old(writeopen)
    {
      PutHolds(Bytes(), stored, taken, c);
      data[nwrite % PIPESIZE] := c;
      nwrite := (nwrite + 1) % UINT;
      stored := stored + [c];
      assert Bytes() == WithByte(old(Bytes()), c);
    }

    /** piperead from its test for data on, with the lock; n is the caller's limit, and woke says
        that it called wakeup(&p->nwrite). */
    method Read(n: int, killed: bool) returns (got: seq<char>, out: Outcome, woke: bool)
      requires Valid()
      modifies this
      ensures Valid() && data == old(data) && stored == old(stored) && readopen == old(readopen)
      ensures writeopen == old(writeopen)
      ensures out == if |stored| == |old(taken)| && writeopen then (if killed then Failed else Slept) else Returned
      ensures (Bytes(), got) == Drain(old(Bytes()), if out.Returned? then n else 0)
      ensures |got| == if out != Returned || n < 0 then 0 else Min(n, |stored| - |old(taken)|)
      ensures taken == old(taken) + got && woke == out.Returned?
    {
      hide Drain, Holds;
      got := [];
      DrainOne(Bytes(), 0, []);
      Counters(Bytes(), stored, taken);
      DrainHolds(Bytes(), stored, taken, n);
      if nread == nwrite && writeopen {
        if killed {
          return got, Failed, false;
        }
        return got, Slept, false;
      }
      var i := 0;
      assert [] + Drain(Bytes(), n).1 == Drain(Bytes(), n).1;
      while i < n
        invariant 0 <= i && (i <= n || i == 0) && Valid() && data == old(data)
        invariant stored == old(stored) && readopen == old(readopen) && writeopen == old(writeopen)
        invariant taken == old(taken) + got
        invariant var d := Drain(Bytes(), n - i); Drain(old(Bytes()), n) == (d.0, got + d.1)
      {
        if nread == nwrite {
          break;
        }
        DrainOne(Bytes(), n - i, got);
        var c := Get();
        got := got + [c];
        i := i + 1;
      }
      DrainOne(Bytes(), n - i, got);
      out, woke := Returned, true;
    }

    /** c = data[nread++ % PIPESIZE] */
    method Get() returns (c: char)
      requires Valid() && !Empty(Bytes())
      modifies this
      ensures Valid() && data == old(data) && taken == old(taken) + [c] && |old(taken)| < |stored|
      ensures c == stored[|old(taken)|] == old(data[nread % PIPESIZE])
      ensures Bytes() == old(Bytes()).(nread := old(nread + 1) % UINT)
      ensures stored == old(stored) && readopen == old(readopen) && writeopen == old(writeopen)
    {
      GetHolds(Bytes(), stored, taken);
      c := data[nread % PIPESIZE];
      nread := (nread + 1) % UINT;
      taken := taken + [c];
    }

    /** pipeclose; freed says that the page was given back. */
    method Close(writable: bool) returns (wokeReaders: bool, wokeWriters: bool, freed: bool)
      requires Valid()
      modifies this
      ensures Valid() && data == old(data) && Bytes() == old(Bytes()) && stored == old(stored) && taken == old(taken)
      ensures readopen == (old(readopen) && writable) && writeopen == (old(writeopen) && !writable)
      ensures wokeReaders == writable && wokeWriters == !writable
      ensures freed <==> !readopen && !writeopen
    {
      wokeReaders, wokeWriters := false, false;
      if writable {
        writeopen, wokeReaders := false, true;
      } else {
        readopen, wokeWriters := false, true;
      }
      freed := !readopen && !writeopen;
    }
  }
}

/** Any number of processes reading, writing, closing and being killed, over one pipe. */
module PipeRuns {
  import opened Pipe

  datatype Thread =
    | Idle
    | Writing(buf: seq<char>, i: int)
    | WriterAsleep(buf: seq<char>, i: int)
    | Reading(n: int)
    | ReaderAsleep(n: int)

  /** The pipe and its users; stored and taken record all bytes that went in and that came out. */
  datatype State = State(ring: Ring, readopen: bool, writeopen: bool, threads: seq<Thread>, killed: seq<bool>,
                         stored: seq<char>, taken: seq<char>)

  function WakeReader(t: Thread): Thread
  {
    if t.ReaderAsleep? then Reading(t.n) else t
  }

  function WakeWriter(t: Thread): Thread
  {
    if t.WriterAsleep? then Writing(t.buf, t.i) else t
  }

  /** wakeup(&p->nread) */
  function ReadersWoken(ts: seq<Thread>): (r: seq<Thread>)
    ensures |r| == |ts| && forall t :: 0 <= t < |ts| ==> r[t] == WakeReader(ts[t])
  {
    seq(|ts|, t requires 0 <= t < |ts| => WakeReader(ts[t]))
  }

  /** wakeup(&p->nwrite) */
  function WritersWoken(ts: seq<Thread>): (r: seq<Thread>)
    ensures |r| == |ts| && forall t :: 0 <= t < |ts| ==> r[t] == WakeWriter(ts[t])
  {
    seq(|ts|, t requires 0 <= t < |ts| => WakeWriter(ts[t]))
  }

  ghost predicate IsThread(s: State, t: int)
  {
    0 <= t < |s.threads| && |s.killed| == |s.threads|
  }

  ghost predicate CallWrite(s: State, s': State, t: int, buf: seq<char>)
  {
    IsThread(s, t) && s.threads[t].Idle? && s.writeopen && s' == s.(threads := s.threads[t := Writing(buf, 0)])
  }

  ghost predicate CallRead(s: State, s': State, t: int, n: int)
  {
    IsThread(s, t) && s.threads[t].Idle? && s.readopen && s' == s.(threads := s.threads[t := Reading(n)])
  }

  /** A stretch of pipewrite, as Pipe.Write specifies it. */
  ghost predicate RunWrite(s: State, s': State, t: int)
  {
    && IsThread(s, t) && s.threads[t].Writing? && 0 <= s.threads[t].i <= |s.threads[t].buf| && |s.ring.data| == PIPESIZE
    && var buf, i := s.threads[t].buf, s.threads[t].i;
       var f := Fill(s.ring, buf, i);
       s' == s.(ring := f.0, stored := s.stored + buf[i..f.1], threads :=
         if f.1 == |buf| then ReadersWoken(s.threads)[t := Idle]
         else if !s.readopen || s.killed[t] then s.threads[t := Idle]
         else ReadersWoken(s.threads)[t := WriterAsleep(buf, f.1)])
  }

  /** A stretch of piperead, as Pipe.Read specifies it. */
  ghost predicate RunRead(s: State, s': State, t: int)
  {
    && IsThread(s, t) && s.threads[t].Reading? && |s.ring.data| == PIPESIZE
    && var n := s.threads[t].n;
       if Empty(s.ring) && s.writeopen
       then s' == s.(threads := s.threads[t := if s.killed[t] then Idle else ReaderAsleep(n)])
       else
         var d := Drain(s.ring, n);
         s' == s.(ring := d.0, taken := s.taken + d.1, threads := WritersWoken(s.threads)[t := Idle])
  }

  /** The last descriptor for writing is closed, so nobody is inside pipewrite. */
  ghost predicate CloseWrite(s: State, s': State)
  {
    && s.writeopen && (forall t :: 0 <= t < |s.threads| ==> !s.threads[t].Writing? && !s.threads[t].WriterAsleep?)
    && s' == s.(writeopen := false, threads := ReadersWoken(s.threads))
  }

  ghost predicate CloseRead(s: State, s': State)
  {
    && s.readopen && (forall t :: 0 <= t < |s.threads| ==> !s.threads[t].Reading? && !s.threads[t].ReaderAsleep?)
    && s' == s.(readopen := false, threads := WritersWoken(s.threads))
  }

  ghost predicate Kill(s: State, s': State, t: int)
  {
    && IsThread(s, t)
    && s' == s.(killed := s.killed[t := true], threads := s.threads[t := WakeReader(WakeWriter(s.threads[t]))])
  }

  predicate Asleep(t: Thread)
  {
    t.WriterAsleep? || t.ReaderAsleep?
  }

  /** A killed process is awake, goes on where it slept, and nothing else changes. */
  lemma KillWakes(s: State, s': State, t: int)
    requires Kill(s, s', t)
    ensures |s'.killed| == |s'.threads| == |s.threads| && s'.killed[t] && !Asleep(s'.threads[t])
    ensures s.threads[t].WriterAsleep? ==> s'.threads[t] == Writing(s.threads[t].buf, s.threads[t].i)
    ensures s.threads[t].ReaderAsleep? ==> s'.threads[t] == Reading(s.threads[t].n)
    ensures !Asleep(s.threads[t]) ==> s'.threads[t] == s.threads[t]
    ensures forall u :: 0 <= u < |s.threads| && u != t ==> s'.threads[u] == s.threads[u] && s'.killed[u] == s.killed[u]
    ensures s'.ring == s.ring && s'.stored == s.stored && s'.taken == s.taken
  {
  }

  /** Kill comes after the stretch has tested killed and before it sleeps: it wakes nobody. */
  ghost predicate KillLate(s: State, s': State, t: int)
  {
    exists mid :: LateAt(s, mid, s', t)
  }

  ghost predicate LateAt(s: State, mid: State, s': State, t: int)
  {
    && (RunWrite(s, mid, t) || RunRead(s, mid, t)) && IsThread(mid, t) && Asleep(mid.threads[t])
    && s' == mid.(killed := mid.killed[t := true])
  }

  ghost predicate SomeLate(s: State, s': State)
  {
    exists t :: KillLate(s, s', t)
  }

  ghost predicate Next(s: State, s': State)
  {
    || (exists t, buf :: CallWrite(s, s', t, buf)) || (exists t, n :: CallRead(s, s', t, n))
    || (exists t :: RunWrite(s, s', t)) || (exists t :: RunRead(s, s', t))
    || CloseWrite(s, s') || CloseRead(s, s') || (exists t :: Kill(s, s', t)) || SomeLate(s, s')
  }

  ghost predicate Start(s: State)
  {
    && |s.ring.data| == PIPESIZE && s.ring.nread == s.ring.nwrite == 0 && s.stored == [] && s.taken == []
    && s.readopen && s.writeopen && |s.killed| == |s.threads|
    && forall t :: 0 <= t < |s.threads| ==> s.threads[t].Idle? && !s.killed[t]
  }

  ghost predicate IsRun(run: seq<State>)
  {
    |run| > 0 && Start(run[0]) && forall i :: 0 <= i < |run| - 1 ==> Next(run[i], run[i + 1])
  }

  // ---------------------------------------------------------------- in order, and bounded

  ghost predicate ThreadOk(s: State, t: int)
    requires 0 <= t < |s.threads|
  {
    var th := s.threads[t];
    && (th.Writing? || th.WriterAsleep? ==> s.writeopen && 0 <= th.i <= |th.buf|)
    && (th.Reading? || th.ReaderAsleep? ==> s.readopen)
  }

  ghost predicate Inv(s: State)
  {
    && Holds(s.ring, s.stored, s.taken) && |s.killed| == |s.threads|
    && forall t :: 0 <= t < |s.threads| ==> ThreadOk(s, t)
  }

  lemma InvWrite(s: State, s': State, t: int)
    requires Inv(s) && RunWrite(s, s', t)
    ensures Inv(s')
  {
    hide Holds;
    FillHolds(s.ring, s.stored, s.taken, s.threads[t].buf, s.threads[t].i);
    forall u | 0 <= u < |s'.threads| ensures ThreadOk(s', u) {
      assert ThreadOk(s, u);
    }
  }

  lemma InvRead(s: State, s': State, t: int)
    requires Inv(s) && RunRead(s, s', t)
    ensures Inv(s')
  {
    hide Holds;
    DrainHolds(s.ring, s.stored, s.taken, s.threads[t].n);
    forall u | 0 <= u < |s'.threads| ensures ThreadOk(s', u) {
      assert ThreadOk(s, u);
    }
  }

  lemma InvLate(s: State, s': State, t: int)
    requires Inv(s) && KillLate(s, s', t)
    ensures Inv(s')
  {
    hide Holds;
    var mid :| LateAt(s, mid, s', t);
    if RunWrite(s, mid, t) {
      InvWrite(s, mid, t);
    } else {
      InvRead(s, mid, t);
    }
    forall u | 0 <= u < |s'.threads| ensures ThreadOk(s', u) {
      assert ThreadOk(mid, u);
    }
  }

  lemma InvNext(s: State, s': State)
    requires Inv(s) && Next(s, s')
    ensures Inv(s')
  {
    hide Holds, KillLate;
    if t :| KillLate(s, s', t) {
      InvLate(s, s', t);
    } else if t :| RunWrite(s, s', t) {
      InvWrite(s, s', t);
    } else if t :| RunRead(s, s', t) {
      InvRead(s, s', t);
    } else {
      forall u | 0 <= u < |s'.threads| ensures ThreadOk(s', u) {
        assert ThreadOk(s, u);
      }
    }
  }

  lemma {:induction false} InvRun(run: seq<State>, i: int)
    requires IsRun(run) && 0 <= i < |run|
    ensures Inv(run[i])
    decreases i
  {
    if i > 0 {
      InvRun(run, i - 1);
      InvNext(run[i - 1], run[i]);
    }
  }

  /** In every run, with counters that wrap, the bytes that came out are a prefix of the bytes
      that went in, at most PIPESIZE are in flight, and the ring holds exactly those. */
  lemma BytesInOrder(run: seq<State>, i: int)
    requires IsRun(run) && 0 <= i < |run|
    ensures run[i].taken <= run[i].stored && |run[i].stored| - |run[i].taken| <= PIPESIZE
    ensures |run[i].ring.data| == PIPESIZE
    ensures Drain(run[i].ring, PIPESIZE).1 == run[i].stored[|run[i].taken|..]
  {
    hide IsRun, Drain;
    InvRun(run, i);
    DrainHolds(run[i].ring, run[i].stored, run[i].taken, PIPESIZE);
  }

  // ---------------------------------------------------------------- nobody sleeps for nothing

  ghost predicate NoneStuck(s: State)
  {
    forall t :: 0 <= t < |s.threads| ==>
      && (s.threads[t].ReaderAsleep? ==> |s.stored| == |s.taken| && s.writeopen)
      && (s.threads[t].WriterAsleep? ==> |s.stored| == |s.taken| + PIPESIZE && s.readopen)
  }

  /** A killed writer fills the pipe and returns -1, without waking the reader that sleeps. */
  ghost predicate LostExit(s: State, s': State)
  {
    exists t, r ::
      && RunWrite(s, s', t) && s.killed[t] && s.readopen
      && Fill(s.ring, s.threads[t].buf, s.threads[t].i).1 < |s.threads[t].buf|
      && 0 <= r < |s.threads| && s.threads[r].ReaderAsleep?
  }

  lemma StuckWrite(s: State, s': State, t: int)
    requires Inv(s) && NoneStuck(s) && RunWrite(s, s', t)
    ensures NoneStuck(s') <==> !LostExit(s, s')
  {
    hide Holds;
    FillHolds(s.ring, s.stored, s.taken, s.threads[t].buf, s.threads[t].i);
    assert ThreadOk(s, t);
    if r :| 0 <= r < |s.threads| && s.threads[r].ReaderAsleep? {
      assert ThreadOk(s, r);
      assert s'.threads[r].ReaderAsleep? <==> LostExit(s, s');
    }
  }

  /** Falling asleep strands nobody, killed or not. */
  lemma StuckLate(s: State, s': State, t: int)
    requires Inv(s) && NoneStuck(s) && KillLate(s, s', t)
    ensures NoneStuck(s') && !LostExit(s, s')
  {
    var mid :| LateAt(s, mid, s', t);
    assert !LostExit(s, s');
    if RunWrite(s, mid, t) {
      assert !LostExit(s, mid);
      StuckWrite(s, mid, t);
    } else {
      StuckRead(s, mid, t);
    }
  }

  lemma StuckRead(s: State, s': State, t: int)
    requires Inv(s) && NoneStuck(s) && RunRead(s, s', t)
    ensures NoneStuck(s')
  {
    hide Holds;
    Counters(s.ring, s.stored, s.taken);
    forall u | 0 <= u < |s'.threads|
      ensures s'.threads[u].ReaderAsleep? ==> |s'.stored| == |s'.taken| && s'.writeopen
      ensures s'.threads[u].WriterAsleep? ==> |s'.stored| == |s'.taken| + PIPESIZE && s'.readopen
    {
      assert ThreadOk(s, u);
    }
  }

  lemma StuckNext(s: State, s': State)
    requires Inv(s) && NoneStuck(s) && Next(s, s')
    ensures NoneStuck(s') <==> !LostExit(s, s')
  {
    hide KillLate;
    if t :| KillLate(s, s', t) {
      StuckLate(s, s', t);
    } else if t :| RunWrite(s, s', t) {
      StuckWrite(s, s', t);
    } else {
      assert !LostExit(s, s');
      StuckOther(s, s');
    }
  }

  lemma StuckOther(s: State, s': State)
    requires Inv(s) && NoneStuck(s) && Next(s, s')
    requires !(exists t :: RunWrite(s, s', t)) && !SomeLate(s, s')
    ensures NoneStuck(s')
  {
    hide Holds;
    Counters(s.ring, s.stored, s.taken);
    forall t | 0 <= t < |s'.threads|
      ensures s'.threads[t].ReaderAsleep? ==> |s'.stored| == |s'.taken| && s'.writeopen
      ensures s'.threads[t].WriterAsleep? ==> |s'.stored| == |s'.taken| + PIPESIZE && s'.readopen
    {
      assert ThreadOk(s, t);
    }
  }

  lemma {:induction false} NoneStuckUpTo(run: seq<State>, n: int)
    requires IsRun(run) && 0 <= n < |run|
    ensures (forall i :: 0 <= i <= n ==> NoneStuck(run[i]))
       <==> (forall i :: 0 <= i < n ==> !LostExit(run[i], run[i + 1]))
    decreases n
  {
    hide Next, NoneStuck, LostExit, Inv;
    if n == 0 {
      StartNotStuck(run[0]);
    } else {
      NoneStuckUpTo(run, n - 1);
      InvRun(run, n - 1);
      if NoneStuck(run[n - 1]) {
        StuckNext(run[n - 1], run[n]);
      }
    }
  }

  lemma StartNotStuck(s: State)
    requires Start(s)
    ensures NoneStuck(s)
  {
  }

  /** No reader sleeps on a pipe with bytes in it, or whose write end is closed, and no writer on
      one with room, or whose read end is closed: in exactly the runs where no killed writer
      returns from a full pipe while a reader sleeps. */
  lemma NoneStuckIff(run: seq<State>)
    requires IsRun(run)
    ensures (forall i :: 0 <= i < |run| ==> NoneStuck(run[i]))
       <==> (forall i :: 0 <= i < |run| - 1 ==> !LostExit(run[i], run[i + 1]))
  {
    hide NoneStuck, LostExit, Next, Start;
    NoneStuckUpTo(run, |run| - 1);
  }

  ghost predicate NoKills(run: seq<State>)
  {
    forall i, t :: 0 <= i < |run| && 0 <= t < |run[i].killed| ==> !run[i].killed[t]
  }

  /** In runs without kill nobody sleeps for nothing. */
  lemma UnkilledNeverStuck(run: seq<State>, i: int)
    requires IsRun(run) && NoKills(run) && 0 <= i < |run|
    ensures NoneStuck(run[i])
  {
    hide Next, Start, NoneStuck;
    forall j | 0 <= j < |run| - 1 ensures !LostExit(run[j], run[j + 1]) {
      assert forall t :: 0 <= t < |run[j].killed| ==> !run[j].killed[t];
    }
    NoneStuckIff(run);
  }

  // ---------------------------------------------------------------- killed processes

  /** Nobody who has been killed is asleep. */
  ghost predicate NoneKilledAsleep(s: State)
  {
    forall t :: IsThread(s, t) && s.killed[t] ==> !Asleep(s.threads[t])
  }

  lemma KilledNext(s: State, s': State)
    requires Inv(s) && NoneKilledAsleep(s) && Next(s, s')
    ensures NoneKilledAsleep(s') <==> !SomeLate(s, s')
  {
    hide Holds, Fill, Drain, KillLate;
    if t :| KillLate(s, s', t) {
      LateAsleep(s, s', t);
    } else {
      forall t | IsThread(s', t) && s'.killed[t] ensures !Asleep(s'.threads[t]) {
        assert IsThread(s, t);
      }
    }
  }

  lemma LateAsleep(s: State, s': State, t: int)
    requires KillLate(s, s', t)
    ensures !NoneKilledAsleep(s')
  {
    var mid :| LateAt(s, mid, s', t);
    assert IsThread(s', t) && s'.killed[t] && Asleep(s'.threads[t]);
  }

  lemma {:induction false} KilledUpTo(run: seq<State>, n: int)
    requires IsRun(run) && 0 <= n < |run|
    ensures (forall i :: 0 <= i <= n ==> NoneKilledAsleep(run[i]))
       <==> (forall i :: 0 <= i < n ==> !SomeLate(run[i], run[i + 1]))
    decreases n
  {
    hide Next, NoneKilledAsleep, SomeLate, Inv;
    if n == 0 {
      StartNotKilled(run[0]);
    } else {
      KilledUpTo(run, n - 1);
      InvRun(run, n - 1);
      if NoneKilledAsleep(run[n - 1]) {
        KilledNext(run[n - 1], run[n]);
      }
    }
  }

  lemma StartNotKilled(s: State)
    requires Start(s)
    ensures NoneKilledAsleep(s)
  {
  }

  /** A killed process is never left asleep on the pipe, in exactly the runs where no kill falls between a
      process's test of killed and its sleep. */
  lemma NoneKilledAsleepIff(run: seq<State>)
    requires IsRun(run)
    ensures (forall i :: 0 <= i < |run| ==> NoneKilledAsleep(run[i]))
       <==> (forall i :: 0 <= i < |run| - 1 ==> !SomeLate(run[i], run[i + 1]))
  {
    hide NoneKilledAsleep, SomeLate, Next, Start;
    KilledUpTo(run, |run| - 1);
  }

  /** It does happen: a reader is killed on its way into sleep, and sleeps on. */
  lemma KilledAsleep() returns (run: seq<State>)
    ensures IsRun(run) && !NoneKilledAsleep(run[|run| - 1])
  {
    var s0 := State(Ring(seq(PIPESIZE, _ => 'x'), 0, 0), true, true, [Idle], [false], [], []);
    var s1 := s0.(threads := [Reading(1)]);
    var mid := s0.(threads := [ReaderAsleep(1)]);
    var s2 := mid.(killed := [true]);
    assert CallRead(s0, s1, 0, 1);
    assert RunRead(s1, mid, 0);
    assert LateAt(s1, mid, s2, 0);
    assert KillLate(s1, s2, 0);
    LateAsleep(s1, s2, 0);
    assert Next(s0, s1) && Next(s1, s2);
    run := [s0, s1, s2];
  }

  /** With kill it can happen: a reader is left asleep on a full pipe. */
  lemma KillLosesWakeup() returns (run: seq<State>)
    ensures IsRun(run) && !NoneStuck(run[|run| - 1])
  {
    var buf := seq(PIPESIZE + 1, _ => 'x');
    var r0 := Ring(seq(PIPESIZE, _ => 'x'), 0, 0);
    var s0 := State(r0, true, true, [Idle, Idle], [false, false], [], []);
    var s1 := s0.(threads := [Reading(1), Idle]);
    var s2 := s0.(threads := [ReaderAsleep(1), Idle]);
    var s3 := s0.(threads := [ReaderAsleep(1), Writing(buf, 0)]);
    var s4 := s3.(killed := [false, true]);
    assert Holds(r0, [], []);
    FillHolds(r0, [], [], buf, 0);
    var f := Fill(r0, buf, 0);
    var s5 := s4.(ring := f.0, stored := [] + buf[0..f.1], threads := [ReaderAsleep(1), Idle]);
    assert CallRead(s0, s1, 0, 1);
    assert RunRead(s1, s2, 0);
    assert CallWrite(s2, s3, 1, buf);
    assert Kill(s3, s4, 1);
    assert RunWrite(s4, s5, 1);
    run := [s0, s1, s2, s3, s4, s5];
    assert s5.threads[0].ReaderAsleep? && |s5.stored| > |s5.taken|;
  }
}
