/** The ring buffers as classes over a real array. Each method is the source's code run without
    interruption; it does to memory exactly what the step machine does when one side runs alone. */
module RingClasses {
  import opened FifoHistory
  import opened Int32
  import opened Modulo
  import opened RingMachine
  import opened RingTheorems

  /** The reference ring between calls. */
  function AtRest(write: nat, read: nat, buf: seq<int>): Ring {
    Ring(write, read, buf, PIdle, CIdle, false, [])
  }

  lemma RefPush(write: nat, read: nat, buf: seq<int>, limit: nat, v: int)
    requires RefInv(AtRest(write, read, buf), limit) && write - read < limit
    ensures var g' := AtRest(write + 1, read, buf[write % |buf| := v]);
      RefInv(g', limit) && Contents(g') == Contents(AtRest(write, read, buf)) + [v]
  {
    var g, g' := AtRest(write, read, buf), AtRest(write + 1, read, buf[write % |buf| := v]);
    forall i | 0 <= i < write - read
      ensures Cell(g', i) == Cell(g, i)
    {
      FreshSlot(g, limit, i);
    }
    assert Cell(g', write - read) == v;
  }

  lemma RefPop(write: nat, read: nat, buf: seq<int>, limit: nat)
    requires RefInv(AtRest(write, read, buf), limit) && read < write
    ensures var g, g' := AtRest(write, read, buf), AtRest(write, read + 1, buf);
      RefInv(g', limit) && Contents(g) != [] && Contents(g)[0] == buf[read % |buf|] && Contents(g') == Contents(g)[1..]
  {
    var g, g' := AtRest(write, read, buf), AtRest(write, read + 1, buf);
    assert Cell(g, 0) == buf[read % |buf|];
    forall i | 0 <= i < |Contents(g')|
      ensures Contents(g')[i] == Contents(g)[1..][i]
    {
      assert Cell(g', i) == Cell(g, i + 1);
    }
  }

  /** A wrapped ring between calls, after so many pushes and pops. */
  function WrappedAtRest(pushes: nat, pops: nat, buf: seq<int>): (s: Ring)
    requires |buf| > 0
    ensures s == Image(Wrapped, AtRest(pushes, pops, buf))
  {
    Ring(pushes % |buf|, pops % |buf|, buf, PIdle, CIdle, false, [])
  }

  /** A push on the wrapped ring is a push on the reference ring. */
  lemma WrappedPush(pushes: nat, pops: nat, buf: seq<int>, v: int)
    requires 0 < |buf| <= INT_MAX && RefInv(AtRest(pushes, pops, buf), |buf| - 1)
    ensures var g, s := AtRest(pushes, pops, buf), WrappedAtRest(pushes, pops, buf);
      && 0 <= s.write < |buf|
      && (Increment(Wrapped, |buf|, s.write) != s.read <==> |Contents(g)| < |buf| - 1)
      && (|Contents(g)| < |buf| - 1 ==>
            var g' := AtRest(pushes + 1, pops, buf[s.write := v]);
            && RefInv(g', |buf| - 1) && Contents(g') == Contents(g) + [v]
            && Pushed(Wrapped, s, v) == WrappedAtRest(pushes + 1, pops, g'.buf))
  {
    IncrementImage(Wrapped, |buf|, pushes);
    SameSlot(pops, pushes + 1, |buf|);
    if pushes - pops < |buf| - 1 {
      RefPush(pushes, pops, buf, |buf| - 1, v);
    }
  }

  /** A pop on the wrapped ring is a pop on the reference ring. */
  lemma WrappedPop(pushes: nat, pops: nat, buf: seq<int>)
    requires 0 < |buf| <= INT_MAX && RefInv(AtRest(pushes, pops, buf), |buf| - 1)
    ensures var g, s := AtRest(pushes, pops, buf), WrappedAtRest(pushes, pops, buf);
      && 0 <= s.read < |buf|
      && (s.read != s.write <==> Contents(g) != [])
      && (Contents(g) != [] ==>
            var g' := AtRest(pushes, pops + 1, buf);
            && RefInv(g', |buf| - 1) && Contents(g)[0] == buf[s.read] && Contents(g') == Contents(g)[1..]
            && Popped(Wrapped, s) == WrappedAtRest(pushes, pops + 1, buf))
  {
    IncrementImage(Wrapped, |buf|, pops);
    SameSlot(pops, pushes, |buf|);
    if pops < pushes {
      RefPop(pushes, pops, buf, |buf| - 1);
    }
  }

  /** The wrapped ring. The ghost fields count the pushes and pops made; the indices are their
      remainders. */
  class WrappedRing {
    var write: int
    var read: int
    const size: nat
    const buffer: array<int>
    ghost var pushes: nat
    ghost var pops: nat

    ghost predicate Valid()
      reads this, buffer
    {
      && 0 < size == buffer.Length <= INT_MAX
      && RefInv(Reference(), size - 1)
      && Memory() == WrappedAtRest(pushes, pops, buffer[..])
    }

    ghost function Memory(): Ring
      reads this, buffer
    {
      Ring(write, read, buffer[..], PIdle, CIdle, false, [])
    }

    ghost function Reference(): Ring
      reads this, buffer
    {
      AtRest(pushes, pops, buffer[..])
    }

    ghost function Queue(): seq<int>
      requires Valid()
      reads this, buffer
    {
      Contents(Reference())
    }

    /** The queue is what lies between the indices, around the ring. */
    lemma QueueIsBetween()
      requires Valid()
      ensures 0 <= read < size && 0 <= write < size && Queue() == WrappedContents(Memory())
    {
      ImageContents(Reference());
    }

    constructor (size: nat)
      requires 0 < size <= INT_MAX
      ensures Valid() && fresh(buffer) && this.size == size && Queue() == []
    {
      this.size := size;
      buffer := new int[size];
      write, read, pushes, pops := 0, 0, 0, 0;
    }

    function Next(n: int): int
      requires size > 0
    {
      Remainder(Successor(n), size)
    }

    method TryPush(val: int) returns (ok: bool)
      requires Valid()
      modifies this`write, this`pushes, buffer
      ensures Valid()
      ensures ok <==> Answer(Bounded(size - 1), old(Queue()), Put(val)) == Ok
      ensures Queue() == After(Bounded(size - 1), old(Queue()), Put(val))
      ensures Memory() == Pushed(Wrapped, old(Memory()), val)
    {
      WrappedPush(pushes, pops, buffer[..], val);
      var currentTail := write;
      var nextTail := Next(currentTail);
      ok := nextTail != read;
      if ok {
        buffer[currentTail] := val;
        write := nextTail;
        pushes := pushes + 1;
      }
    }

    method TryPop() returns (ok: bool, val: int)
      requires Valid()
      modifies this`read, this`pops
      ensures Valid()
      ensures Answer(Bounded(size - 1), old(Queue()), Take) == if ok then Got(val) else Empty
      ensures Queue() == After(Bounded(size - 1), old(Queue()), Take)
      ensures Memory() == Popped(Wrapped, old(Memory()))
    {
      WrappedPop(pushes, pops, buffer[..]);
      var currentHead := read;
      ok, val := currentHead != write, 0;
      if ok {
        val := buffer[currentHead];
        read := Next(currentHead);
        pops := pops + 1;
      }
    }
  }

  /** A push on the monotone ring, with `write` within range, is a push on the reference ring. */
  lemma MonotonePush(write: nat, read: nat, buf: seq<int>, v: int)
    requires 0 < |buf| && write < INT_MAX && RefInv(AtRest(write, read, buf), |buf|)
    ensures var s, i := AtRest(write, read, buf), Slot(Monotone, |buf|, write);
      && 0 <= i < |buf| && Successor(write) == write + 1
      && (write - read <= |buf| - 1 <==> |Contents(s)| < |buf|)
      && (write - read <= |buf| - 1 ==>
            && Pushed(Monotone, s, v) == AtRest(write + 1, read, buf[i := v])
            && RefInv(Pushed(Monotone, s, v), |buf|) && Contents(Pushed(Monotone, s, v)) == Contents(s) + [v])
  {
    SuccessorExact(write);
    if write - read < |buf| {
      RefPush(write, read, buf, |buf|, v);
    }
  }

  /** A pop on the monotone ring is a pop on the reference ring. */
  lemma MonotonePop(write: nat, read: nat, buf: seq<int>)
    requires 0 < |buf| && write <= INT_MAX && RefInv(AtRest(write, read, buf), |buf|)
    ensures var s, i := AtRest(write, read, buf), Slot(Monotone, |buf|, read);
      && 0 <= i < |buf|
      && (read != write <==> Contents(s) != [])
      && (read != write ==>
            && Contents(s)[0] == buf[i] && Successor(read) == read + 1
            && Popped(Monotone, s) == AtRest(write, read + 1, buf)
            && RefInv(Popped(Monotone, s), |buf|) && Contents(Popped(Monotone, s)) == Contents(s)[1..])
  {
    SuccessorExact(read);
    if read < write {
      RefPop(write, read, buf, |buf|);
    }
  }

  /** The monotone ring: the same code for both memory orders of the source. */
  class MonotoneRing {
    var write: int
    var read: int
    const size: nat
    const buffer: array<int>

    ghost predicate Valid()
      reads this, buffer
    {
      && 0 < size == buffer.Length && write <= INT_MAX
      && RefInv(Memory(), size)
    }

    ghost function Memory(): Ring
      reads this, buffer
    {
      Ring(write, read, buffer[..], PIdle, CIdle, false, [])
    }

    ghost function Queue(): seq<int>
      requires Valid()
      reads this, buffer
    {
      Contents(Memory())
    }

    constructor (size: nat)
      requires 0 < size
      ensures Valid() && fresh(buffer) && this.size == size && Queue() == []
    {
      this.size := size;
      buffer := new int[size];
      write, read := 0, 0;
    }

    /** Requires a write index below INT_MAX, beyond which the source's `int` increment overflows. */
    method TryPush(val: int) returns (ok: bool)
      requires Valid() && write < INT_MAX
      modifies this`write, buffer
      ensures Valid()
      ensures ok <==> Answer(Bounded(size), old(Queue()), Put(val)) == Ok
      ensures Queue() == After(Bounded(size), old(Queue()), Put(val))
      ensures Memory() == Pushed(Monotone, old(Memory()), val)
    {
      MonotonePush(write, read, buffer[..], val);
      var currentTail := write;
      var nextTail := Successor(currentTail);
      ok := currentTail - read <= size - 1;
      if ok {
        buffer[Remainder(currentTail, size)] := val;
        write := nextTail;
      }
    }

    method TryPop() returns (ok: bool, val: int)
      requires Valid()
      modifies this`read
      ensures Valid()
      ensures Answer(Bounded(size), old(Queue()), Take) == if ok then Got(val) else Empty
      ensures Queue() == After(Bounded(size), old(Queue()), Take)
      ensures Memory() == Popped(Monotone, old(Memory()))
    {
      MonotonePop(write, read, buffer[..]);
      var currentHead := read;
      ok, val := currentHead != write, 0;
      if ok {
        val := buffer[Remainder(currentHead, size)];
        read := Successor(currentHead);
      }
    }
  }

  // ----- the ring behind a mutex, which tests nothing -----

  /** The latest of the first `w` indices that falls into slot `c`. */
  function Latest(w: nat, c: nat, size: nat): (j: nat)
    requires c < size && c < w
    ensures c <= j < w
  {
    w - 1 - (w - 1 - c) % size
  }

  lemma LatestInSlot(w: nat, c: nat, size: nat)
    requires c < size && c < w
    ensures Latest(w, c, size) % size == c && w - Latest(w, c, size) <= size
  {
    var d := w - 1 - c;
    assert Latest(w, c, size) == size * (d / size) + c;
    RemainderIs(Latest(w, c, size), size, d / size, c);
  }

  /** The latest index of a slot is the one index of that slot among the last `size`. */
  lemma LatestUnique(w: nat, c: nat, size: nat, j: nat)
    requires c < size && j < w && j % size == c && w <= j + size
    ensures c < w && Latest(w, c, size) == j
  {
    LatestInSlot(w, c, size);
    var l := Latest(w, c, size);
    if l < j {
      SlotsDiffer(l, j, size);
    } else if j < l {
      SlotsDiffer(j, l, size);
    }
  }

  /** One more push moves the latest index of its own slot and of no other. */
  lemma LatestAfterPush(w: nat, c: nat, size: nat)
    requires c < size && c < w + 1
    ensures if w % size == c then Latest(w + 1, c, size) == w
            else c < w && Latest(w + 1, c, size) == Latest(w, c, size)
  {
    if w % size == c {
      LatestUnique(w + 1, c, size, w);
    } else {
      LatestInSlot(w, c, size);
      if Latest(w, c, size) + size == w {
        SlotAfterRound(Latest(w, c, size), size);
      }
      LatestUnique(w + 1, c, size, Latest(w, c, size));
    }
  }

  /** The push whose value a pop at index `r` returns is the `r`-th exactly in the window where it
      has been made and not been overwritten. */
  lemma PopsOwnPush(w: nat, r: nat, size: nat)
    requires 0 < size && r % size < w
    ensures Latest(w, r % size, size) == r <==> r < w <= r + size
  {
    if r < w <= r + size {
      LatestUnique(w, r % size, size, r);
    } else if r + size < w {
      LatestInSlot(w, r % size, size);
    }
  }

  datatype Locked = Locked(write: nat, read: nat, buf: seq<int>)

  function LockedPush(s: Locked, v: int): (s': Locked)
    requires |s.buf| > 0
    ensures |s'.buf| == |s.buf|
  {
    Locked(s.write + 1, s.read, s.buf[s.write % |s.buf| := v])
  }

  function LockedPop(s: Locked): (s': Locked)
    ensures |s'.buf| == |s.buf|
  {
    s.(read := s.read + 1)
  }

  function Oldest(s: Locked): int
    requires |s.buf| > 0
  {
    s.buf[s.read % |s.buf|]
  }

  /** Every cell written so far holds the latest push that fell into it. */
  predicate HoldsLatest(s: Locked, pushed: seq<int>) {
    && s.write == |pushed|
    && forall c :: 0 <= c < |s.buf| && c < s.write ==> s.buf[c] == pushed[Latest(s.write, c, |s.buf|)]
  }

  lemma PushHoldsLatest(s: Locked, pushed: seq<int>, v: int)
    requires |s.buf| > 0 && HoldsLatest(s, pushed)
    ensures HoldsLatest(LockedPush(s, v), pushed + [v])
  {
    var s' := LockedPush(s, v);
    forall c | 0 <= c < |s.buf| && c < s'.write
      ensures s'.buf[c] == (pushed + [v])[Latest(s'.write, c, |s.buf|)]
    {
      LatestAfterPush(s.write, c, |s.buf|);
    }
  }

  class LockedRing {
    var write: int
    var read: int
    const size: nat
    const buffer: array<int>
    ghost var pushed: seq<int>

    ghost predicate Valid()
      reads this, buffer
    {
      && 0 < size == buffer.Length && 0 <= write && 0 <= read
      && HoldsLatest(Memory(), pushed)
    }

    ghost function Memory(): Locked
      requires 0 <= write && 0 <= read
      reads this, buffer
    {
      Locked(write, read, buffer[..])
    }

    constructor (size: nat)
      requires 0 < size
      ensures Valid() && fresh(buffer) && this.size == size && pushed == [] && read == 0
    {
      this.size := size;
      buffer := new int[size];
      write, read, pushed := 0, 0, [];
    }

    method Push(val: int)
      requires Valid()
      modifies this`write, this`pushed, buffer
      ensures Valid() && pushed == old(pushed) + [val]
      ensures Memory() == LockedPush(old(Memory()), val)
    {
      PushHoldsLatest(Memory(), pushed, val);
      buffer[write % size] := val;
      write := write + 1;
      pushed := pushed + [val];
    }

    /** A pop returns the value of the latest push into its slot; that is the push of its own index
        exactly when `read < write <= read + size`. */
    method Pop() returns (ret: int)
      requires Valid()
      modifies this`read
      ensures Valid() && Memory() == LockedPop(old(Memory()))
      ensures ret == Oldest(old(Memory()))
      ensures old(read) % size < write ==> ret == pushed[Latest(write, old(read) % size, size)]
      ensures old(read) < write <= old(read) + size ==> ret == pushed[old(read)]
    {
      ret := buffer[read % size];
      if read < write <= read + size {
        LatestUnique(write, read % size, size, read);
      }
      read := read + 1;
    }
  }

  // ----- the guarded ring never leaves the window in which the locked ring is FIFO -----

  /** The locked ring after performing, unguarded, the operations that succeeded in a history. */
  function Replay(buf: seq<int>, h: seq<Event>): (s: Locked)
    ensures |s.buf| == |buf|
  {
    if h == [] || |buf| == 0 then Locked(0, 0, buf)
    else if Succeeds(Last(h)) then
      if Last(h).op.Put? then LockedPush(Replay(buf, Front(h)), Last(h).op.v) else LockedPop(Replay(buf, Front(h)))
    else Replay(buf, Front(h))
  }

  /** What the locked ring's pops return along the way. */
  function Replayed(buf: seq<int>, h: seq<Event>): seq<int> {
    if h == [] || |buf| == 0 then []
    else if Succeeds(Last(h)) && Last(h).op.Take? then Replayed(buf, Front(h)) + [Oldest(Replay(buf, Front(h)))]
    else Replayed(buf, Front(h))
  }

  lemma ValuesExtend(ps: seq<(Tid, int)>, t: Tid, v: int)
    ensures Values(ps + [(t, v)]) == Values(ps) + [v]
  {
  }

  /** Within the window a pop of the locked ring returns the push of its own index. */
  lemma OldestInWindow(s: Locked, pushed: seq<int>)
    requires |s.buf| > 0 && HoldsLatest(s, pushed) && s.read < s.write <= s.read + |s.buf|
    ensures Oldest(s) == pushed[s.read]
  {
    LatestUnique(s.write, s.read % |s.buf|, |s.buf|, s.read);
  }

  /** Every history of a queue bounded by the size, replayed on the locked ring, keeps
      `0 <= write - read <= size` and gives the same answers. */
  lemma {:induction false} GuardedHistoryIsLocked(buf: seq<int>, h: seq<Event>)
    requires |buf| > 0 && Accepted(Bounded(|buf|), h)
    ensures var s := Replay(buf, h);
      && s.write == |Puts(h)| && s.read == |Takes(h)|
      && 0 <= s.write - s.read <= |buf|
      && HoldsLatest(s, Values(Puts(h)))
      && Replayed(buf, h) == Takes(h)
  {
    if h != [] {
      var g, e := Front(h), Last(h);
      GuardedHistoryIsLocked(buf, g);
      TakesArePrefixOfPuts(Bounded(|buf|), h);
      if !Succeeds(e) {
        assert Puts(g) + [] == Puts(g) && Takes(g) + [] == Takes(g);
      } else if e.op.Put? {
        assert Takes(g) + [] == Takes(g);
        var s, ps, v := Replay(buf, g), Puts(g), e.op.v;
        ValuesExtend(ps, e.t, v);
        PushHoldsLatest(s, Values(ps), v);
      } else {
        assert Puts(g) + [] == Puts(g);
        assert Takes(h) == Takes(g) + [e.res.v];
        assert Values(Puts(h))[|Takes(g)|] == Takes(h)[|Takes(g)|];
        OldestInWindow(Replay(buf, g), Values(Puts(g)));
      }
    }
  }

  /** In particular the successful operations of every run of the monotone ring are a run of the
      locked ring, with the same values popped. */
  lemma MonotoneRunsOnLocked(buf: seq<int>, acts: seq<Act>)
    requires 0 < |buf| && CallsInRange(buf, acts)
    ensures var h := Run(Monotone, Initial(buf), acts).hist;
      && 0 <= Replay(buf, h).write - Replay(buf, h).read <= |buf|
      && Replayed(buf, h) == Takes(h)
  {
    MonotoneLinearizable(buf, acts);
    GuardedHistoryIsLocked(buf, Run(Monotone, Initial(buf), acts).hist);
  }
}
