/** What holds over every run of the fine-grained queue, for any number of threads, any programs,
    any interleaving of their statements and any choice of the allocator. */
module TwoLockTheorems {
  import opened FifoHistory
  import opened TwoLockQueue
  import opened Sums

  // ----- memory safety -----

  /** The addresses that a thread's next statement dereferences or deletes. */
  function Touched(pc: Pc): set<Address> {
    match pc
    case EnqNew(_, n) => {n}
    case EnqTail(_, _, last) => {last}
    case DeqHead(cur) => {cur}
    case DeqNext(_, succ) => {succ}
    case DeqUnlocked(cur, _) => {cur}
    case _ => {}
  }

  lemma TouchedIsLive(m: Memory, t: Tid, pc: Pc)
    requires MemoryInv(m) && ThreadInv(m, t, pc)
    ensures Touched(pc) <= m.heap.Keys
  {
    if pc.DeqNext? {
      assert m.chain[1] in m.heap;
    } else if pc.DeqHead? {
      assert m.chain[0] in m.heap;
    } else if pc.EnqTail? {
      assert m.chain[|m.chain| - 1] in m.heap;
    }
  }

  /** No statement touches a node that is not allocated, and no two threads ever have the same node
      to delete. */
  lemma NoUseAfterFree(ss: seq<State>, acts: seq<Action>, i: nat)
    requires IsRun(ss, acts) && i < |ss|
    ensures !ss[i].fault
    ensures forall t :: 0 <= t < |ss[i].pcs| ==> Touched(ss[i].pcs[t]) <= ss[i].mem.heap.Keys
    ensures forall t, u :: 0 <= t < u < |ss[i].pcs| && ss[i].pcs[t].DeqUnlocked? && ss[i].pcs[u].DeqUnlocked? ==>
      ss[i].pcs[t].cur != ss[i].pcs[u].cur
  {
    RunInv(ss, acts, i);
    InvGivesSafety(ss[i]);
  }

  lemma InvGivesSafety(s: State)
    requires SystemInv(s)
    ensures forall t :: 0 <= t < |s.pcs| ==> Touched(s.pcs[t]) <= s.mem.heap.Keys
    ensures forall t, u :: 0 <= t < u < |s.pcs| && s.pcs[t].DeqUnlocked? && s.pcs[u].DeqUnlocked? ==>
      s.pcs[t].cur != s.pcs[u].cur
  {
    forall t | 0 <= t < |s.pcs|
      ensures Touched(s.pcs[t]) <= s.mem.heap.Keys
    {
      TouchedIsLive(s.mem, t, s.pcs[t]);
    }
    forall t, u | 0 <= t < u < |s.pcs| && s.pcs[t].DeqUnlocked? && s.pcs[u].DeqUnlocked?
      ensures s.pcs[t].cur != s.pcs[u].cur
    {
      assert Apart(s.pcs[t], s.pcs[u]);
    }
  }

  /** `nodes` are the nodes met by following `next` from `p` to the end. */
  ghost predicate IsList(heap: map<Address, Node>, p: Address, nodes: seq<Address>)
    decreases |nodes|
  {
    if nodes == [] then p == NULL
    else p != NULL && p in heap && nodes[0] == p && IsList(heap, heap[p].next, nodes[1..])
  }

  lemma {:induction false} ChainIsList(m: Memory, i: nat)
    requires MemoryInv(m) && i < |m.chain|
    ensures IsList(m.heap, m.chain[i], m.chain[i..])
    decreases |m.chain| - i
  {
    assert m.chain[i..][1..] == m.chain[i + 1..];
    if i + 1 < |m.chain| {
      ChainIsList(m, i + 1);
    } else {
      assert m.chain[i + 1..] == [];
    }
  }

  /** The nodes some thread has to itself: not linked yet, or unlinked and waiting for `delete`. */
  ghost function OwnedNodes(s: State): set<Address> {
    set t | 0 <= t < |s.pcs| && Owns(s.pcs[t]) :: Owned(s.pcs[t])
  }

  /** The live nodes are exactly the list from `head`, the nodes not linked yet and the unlinked
      nodes waiting to be deleted; a node is in one of these places only, and never in two hands. */
  lemma LiveNodes(ss: seq<State>, acts: seq<Action>, i: nat)
    requires IsRun(ss, acts) && i < |ss|
    ensures var s := ss[i];
      && IsList(s.mem.heap, s.mem.head, s.mem.chain)
      && s.mem.heap.Keys == (set p | p in s.mem.chain) + OwnedNodes(s)
      && (set p | p in s.mem.chain) !! OwnedNodes(s)
      && forall t, u :: 0 <= t < |s.pcs| && 0 <= u < |s.pcs| && t != u ==> Apart(s.pcs[t], s.pcs[u])
  {
    RunInv(ss, acts, i);
    var s := ss[i];
    ChainIsList(s.mem, 0);
    assert s.mem.chain[0..] == s.mem.chain;
    forall p | p in s.mem.heap && p !in s.mem.chain
      ensures p in OwnedNodes(s)
    {
      var t :| 0 <= t < |s.pcs| && OwnsAt(s.pcs[t], p);
    }
    forall p | p in OwnedNodes(s)
      ensures p in s.mem.heap && p !in s.mem.chain
    {
      var t :| 0 <= t < |s.pcs| && Owns(s.pcs[t]) && Owned(s.pcs[t]) == p;
      assert ThreadInv(s.mem, t, s.pcs[t]);
    }
  }

  /** Whenever `tail` is not the last node, exactly one thread is between linking its node and
      moving `tail`, and it holds the tail mutex. */
  lemma TailLagsOnlyInWindow(ss: seq<State>, acts: seq<Action>, i: nat) returns (t: Tid)
    requires IsRun(ss, acts) && i < |ss| && ss[i].mem.tail != LastOf(ss[i].mem.chain)
    ensures t < |ss[i].pcs| && ss[i].pcs[t].EnqLinked? && ss[i].mem.tailLock == Held(t)
    ensures forall u :: 0 <= u < |ss[i].pcs| && ss[i].pcs[u].EnqLinked? ==> u == t
  {
    RunInv(ss, acts, i);
    var s := ss[i];
    assert s.mem.tailLock != Free;
    t := s.mem.tailLock.t;
    assert ThreadInv(s.mem, t, s.pcs[t]);
    forall u | 0 <= u < |s.pcs| && s.pcs[u].EnqLinked?
      ensures u == t
    {
      assert ThreadInv(s.mem, u, s.pcs[u]);
    }
  }

  ghost predicate Reachable(s: State) {
    exists ss, acts :: IsRun(ss, acts) && ss[|acts|] == s
  }

  lemma RunGrows(ss: seq<State>, acts: seq<Action>, a: Action, s': State)
    requires IsRun(ss, acts) && Enabled(ss[|acts|], a) && s' == Step(ss[|acts|], a)
    ensures IsRun(ss + [s'], acts + [a])
  {
    var ss', acts' := ss + [s'], acts + [a];
    forall i | 0 <= i < |acts'|
      ensures Enabled(ss'[i], acts'[i]) && ss'[i + 1] == Step(ss'[i], acts'[i])
    {
      if i < |acts| {
        assert ss'[i] == ss[i] && acts'[i] == acts[i] && ss'[i + 1] == ss[i + 1];
      }
    }
  }

  lemma StepReachable(s: State, a: Action)
    requires Reachable(s) && Enabled(s, a)
    ensures Reachable(Step(s, a))
  {
    var ss, acts :| IsRun(ss, acts) && ss[|acts|] == s;
    RunGrows(ss, acts, a, Step(s, a));
    assert (ss + [Step(s, a)])[|acts + [a]|] == Step(s, a);
  }

  /** In some reachable state two threads, at `pc0` and `pc1`, share `m`. */
  ghost predicate Meet(m: Memory, pc0: Pc, pc1: Pc) {
    exists s :: Reachable(s) && !s.fault && |s.pcs| == |s.todo| == 2 && s.pcs[0] == pc0 && s.pcs[1] == pc1 && s.mem == m
  }

  lemma Advance0(m: Memory, pc0: Pc, pc1: Pc, addr: Address, o: Outcome)
    requires Meet(m, pc0, pc1) && pc0 != Ready && CanRun(m, pc0, Choice(addr, 0))
    requires o == Exec(m, 0, pc0, Choice(addr, 0)) && o.Next?
    ensures Meet(o.mem, o.pc, pc1)
  {
    var s :| Reachable(s) && !s.fault && |s.pcs| == |s.todo| == 2 && s.pcs[0] == pc0 && s.pcs[1] == pc1 && s.mem == m;
    StepReachable(s, Action(0, Choice(addr, 0)));
  }

  lemma Advance1(m: Memory, pc0: Pc, pc1: Pc, addr: Address, o: Outcome)
    requires Meet(m, pc0, pc1) && pc1 != Ready && CanRun(m, pc1, Choice(addr, 0))
    requires o == Exec(m, 1, pc1, Choice(addr, 0)) && o.Next?
    ensures Meet(o.mem, pc0, o.pc)
  {
    var s :| Reachable(s) && !s.fault && |s.pcs| == |s.todo| == 2 && s.pcs[0] == pc0 && s.pcs[1] == pc1 && s.mem == m;
    StepReachable(s, Action(1, Choice(addr, 0)));
  }

  lemma InitialReachable(s: State)
    requires Initial(s)
    ensures Reachable(s)
  {
    var acts: seq<Action> := [];
    assert IsRun([s], acts) && [s][|acts|] == s;
  }

  lemma BothCalled() returns (m: Memory)
    ensures Meet(m, EnqCalled(7), DeqCalled)
    ensures m.head == m.tail == 1 && m.heap == map[1 := Node(0, NULL)] && m.headLock == m.tailLock == Free
  {
    m := Memory(map[1 := Node(0, NULL)], 1, 1, Free, Free, [1]);
    var s := State(m, [Ready, Ready], [[Put(7)], [Take]], false, []);
    InitialReachable(s);
    StepReachable(s, Action(0, Choice(0, 0)));
    var s1 := Step(s, Action(0, Choice(0, 0)));
    assert s1.mem == m && s1.pcs == [EnqCalled(7), Ready] && s1.todo[1] == [Take];
    StepReachable(s1, Action(1, Choice(0, 0)));
  }

  /** An enqueuer can go as far as having linked its node behind the last one. */
  lemma EnqueuerLinks(m: Memory, v: int, a: Address, other: Pc) returns (m': Memory)
    requires Meet(m, EnqCalled(v), other) && m.tailLock == Free && m.tail in m.heap && a != NULL && a !in m.heap
    ensures Meet(m', EnqLinked(v, a), other)
    ensures m'.head == m.head && m'.tail == m.tail && m'.headLock == m.headLock
    ensures m.tail in m'.heap && m'.heap[m.tail].next == a && a in m'.heap
  {
    var m1 := m.(heap := m.heap[a := Node(0, NULL)]);
    Advance0(m, EnqCalled(v), other, a, Next(m1, EnqNew(v, a), []));
    var m2 := m1.(heap := m1.heap[a := m1.heap[a].(data := v)]);
    Advance0(m1, EnqNew(v, a), other, 0, Next(m2, EnqFilled(v, a), []));
    var m3 := m2.(tailLock := Held(0));
    Advance0(m2, EnqFilled(v, a), other, 0, Next(m3, EnqLocked(v, a), []));
    Advance0(m3, EnqLocked(v, a), other, 0, Next(m3, EnqTail(v, a, m.tail), []));
    m' := m3.(heap := m3.heap[m.tail := m3.heap[m.tail].(next := a)], chain := m3.chain + [a]);
    Advance0(m3, EnqTail(v, a, m.tail), other, 0, Next(m', EnqLinked(v, a), [Lin(0, Put(v), Ok)]));
  }

  /** A dequeuer can then go as far as having read `head`. */
  lemma DequeuerLooks(m: Memory, other: Pc) returns (m': Memory)
    requires Meet(m, other, DeqCalled) && m.headLock == Free
    ensures Meet(m', other, DeqHead(m.head)) && m'.heap == m.heap && m'.tail == m.tail
  {
    m' := m.(headLock := Held(1));
    Advance1(m, other, DeqCalled, 0, Next(m', DeqLocked, []));
    Advance1(m', other, DeqLocked, 0, Next(m', DeqHead(m.head), []));
  }

  /** And as far as having read the value it will return. */
  lemma DequeuerReads(m: Memory, other: Pc, cur: Address, succ: Address) returns (x: int)
    requires Meet(m, other, DeqHead(cur))
    requires cur in m.heap && m.heap[cur].next == succ && succ != NULL && succ in m.heap
    ensures Meet(m, other, DeqRead(cur, succ, x))
  {
    x := m.heap[succ].data;
    Advance1(m, other, DeqHead(cur), 0, Next(m, DeqNext(cur, succ), []));
    Advance1(m, other, DeqNext(cur, succ), 0, Next(m, DeqRead(cur, succ, x), []));
  }

  /** And as far as having unlinked the old dummy. */
  lemma DequeuerUnlinks(m: Memory, other: Pc, cur: Address, succ: Address, x: int) returns (m': Memory)
    requires Meet(m, other, DeqRead(cur, succ, x))
    ensures Meet(m', other, DeqUnlocked(cur, x)) && m'.tail == m.tail && m'.heap == m.heap
  {
    var o := Exec(m, 1, DeqRead(cur, succ, x), Choice(0, 0));
    Advance1(m, other, DeqRead(cur, succ, x), 0, o);
    m' := o.mem.(headLock := Free);
    Advance1(o.mem, other, DeqMoved(cur, x), 0, Next(m', DeqUnlocked(cur, x), []));
  }

  /** And as far as having deleted it. */
  lemma DequeuerDeletes(m: Memory, other: Pc, cur: Address, x: int) returns (s: State)
    requires Meet(m, other, DeqUnlocked(cur, x)) && cur in m.heap
    ensures Reachable(s) && s.mem == m.(heap := m.heap - {cur})
  {
    var after := m.(heap := m.heap - {cur});
    Advance1(m, other, DeqUnlocked(cur, x), 0, Next(after, DeqDone(Got(x)), []));
    s :| Reachable(s) && !s.fault && |s.pcs| == |s.todo| == 2
      && s.pcs[0] == other && s.pcs[1] == DeqDone(Got(x)) && s.mem == after;
  }

  /** The window is real: once an enqueuer has linked its node, a dequeuer may unlink and delete the
      old dummy, and `tail` then names memory that is no longer allocated. */
  lemma TailCanDangle() returns (s: State)
    ensures Reachable(s) && s.mem.tail !in s.mem.heap
  {
    var m := BothCalled();
    m := EnqueuerLinks(m, 7, 2, DeqCalled);
    m := DequeuerLooks(m, EnqLinked(7, 2));
    var x := DequeuerReads(m, EnqLinked(7, 2), 1, 2);
    m := DequeuerUnlinks(m, EnqLinked(7, 2), 1, 2, x);
    s := DequeuerDeletes(m, EnqLinked(7, 2), 1, x);
  }

  // ----- linearizability -----

  /** Every run is linearizable to an unbounded FIFO queue, whose value is at every moment the data
      of the linked nodes. */
  lemma LinearizableToFifo(ss: seq<State>, acts: seq<Action>, i: nat)
    requires IsRun(ss, acts) && i < |ss|
    ensures Linearizable(Unbounded, Visible(ss[i].hist))
    ensures Accepted(Unbounded, ss[i].hist) && QueueOf(Unbounded, ss[i].hist) == Contents(ss[i].mem)
  {
    RunInv(ss, acts, i);
    AcceptedIsLinearizable(Unbounded, ss[i].hist);
  }

  /** The history is unchanged, or has grown by a call or a return. */
  predicate NoEffect(before: seq<Event>, after: seq<Event>) {
    after == before || (|after| == |before| + 1 && before < after && !after[|before|].Lin?)
  }

  /** Where operations take effect: an enqueue when it stores `tail->next`, a dequeue when it stores
      `head`, a failing dequeue when it reads a null `next`, at which moment the queue is empty. */
  lemma EffectPoints(ss: seq<State>, acts: seq<Action>, i: nat)
    requires IsRun(ss, acts) && i < |acts|
    ensures var s, s', t := ss[i], ss[i + 1], acts[i].t;
      match s.pcs[t]
      case EnqTail(v, _, _) =>
        s'.hist == s.hist + [Lin(t, Put(v), Ok)] && Contents(s'.mem) == Contents(s.mem) + [v]
      case DeqRead(_, _, x) =>
        s'.hist == s.hist + [Lin(t, Take, Got(x))] && Contents(s.mem) == [x] + Contents(s'.mem)
      case DeqHead(_) =>
        if s'.pcs[t].DeqEmpty? then s'.hist == s.hist + [Lin(t, Take, Empty)] && Contents(s.mem) == []
        else s'.hist == s.hist && Contents(s.mem) != []
      case _ =>
        Contents(s'.mem) == Contents(s.mem) && NoEffect(s.hist, s'.hist)
  {
    RunInv(ss, acts, i);
    var s, t := ss[i], acts[i].t;
    if s.pcs[t] != Ready {
      assert ThreadInv(s.mem, t, s.pcs[t]);
      ExecContents(s.mem, t, s.pcs[t], acts[i].choice);
      ExecFaithful(s.mem, t, s.pcs[t], acts[i].choice);
    }
  }

  /** At every moment what has been enqueued is what has been dequeued followed by the contents of
      the list; and the values dequeued so far are, producer by producer, the first values that
      producer asked to enqueue, in the order it asked. */
  lemma DequeuesArePrefixOfEnqueues(ss: seq<State>, acts: seq<Action>, i: nat, t: Tid)
    requires IsRun(ss, acts) && i < |ss|
    ensures var h := ss[i].hist;
      && Values(Puts(h)) == Takes(h) + Contents(ss[i].mem)
      && |Takes(h)| <= |Puts(h)|
      && Takes(h) == Values(Puts(h)[..|Takes(h)|])
      && Of(Puts(h)[..|Takes(h)|], t) <= CalledPuts(h, t)
  {
    RunInv(ss, acts, i);
    PutsAreTakesThenQueue(Unbounded, ss[i].hist);
    LeaveInProgramOrder(ss[i].hist, t);
  }

  // ----- progress -----

  /** How many statements of the current call are left at most. */
  function Left(pc: Pc): nat {
    match pc
    case Ready => 0
    case EnqCalled(_) => 8
    case EnqNew(_, _) => 7
    case EnqFilled(_, _) => 6
    case EnqLocked(_, _) => 5
    case EnqTail(_, _, _) => 4
    case EnqLinked(_, _) => 3
    case EnqMoved(_) => 2
    case EnqDone(_) => 1
    case DeqCalled => 8
    case DeqLocked => 7
    case DeqHead(_) => 6
    case DeqNext(_, _) => 5
    case DeqRead(_, _, _) => 4
    case DeqMoved(_, _) => 3
    case DeqUnlocked(_, _) => 2
    case DeqEmpty => 2
    case DeqDone(_) => 1
  }

  function Loads(s: State): seq<nat>
    requires |s.pcs| == |s.todo|
  {
    seq(|s.pcs|, t requires 0 <= t < |s.pcs| => 9 * |s.todo[t]| + Left(s.pcs[t]))
  }

  /** The work left in the whole system. */
  function Work(s: State): nat
    requires |s.pcs| == |s.todo|
  {
    Sum(Loads(s))
  }

  lemma ExecWork(m: Memory, t: Tid, pc: Pc, c: Choice)
    requires CanRun(m, pc, c) && Exec(m, t, pc, c).Next?
    ensures Left(Exec(m, t, pc, c).pc) < Left(pc)
  {
  }

  lemma ThreadWorkDecreases(s: State, a: Action)
    requires SystemInv(s) && Enabled(s, a)
    ensures var s', t := Step(s, a), a.t;
      && |s'.pcs| == |s.pcs| && |s'.todo| == |s.todo|
      && (forall u :: 0 <= u < |s.pcs| && u != t ==> s'.pcs[u] == s.pcs[u] && s'.todo[u] == s.todo[u])
      && 9 * |s'.todo[t]| + Left(s'.pcs[t]) < 9 * |s.todo[t]| + Left(s.pcs[t])
  {
    if s.pcs[a.t] != Ready {
      assert ThreadInv(s.mem, a.t, s.pcs[a.t]);
      ExecMemory(s.mem, a.t, s.pcs[a.t], a.choice);
      ExecWork(s.mem, a.t, s.pcs[a.t], a.choice);
    }
  }

  /** Every step of every thread uses up work. */
  lemma WorkDecreases(s: State, a: Action)
    requires SystemInv(s) && Enabled(s, a)
    ensures |Step(s, a).pcs| == |Step(s, a).todo| && Work(Step(s, a)) < Work(s)
  {
    var s', t := Step(s, a), a.t;
    ThreadWorkDecreases(s, a);
    var load := 9 * |s'.todo[t]| + Left(s'.pcs[t]);
    assert Loads(s') == Loads(s)[t := load];
    SumUpdate(Loads(s), t, load);
  }

  /** A run has at most as many steps as its initial work: nine per requested operation. */
  lemma {:induction false} RunsAreBounded(ss: seq<State>, acts: seq<Action>, i: nat)
    requires IsRun(ss, acts) && i < |ss|
    ensures |ss[i].pcs| == |ss[i].todo|
    ensures Work(ss[i]) + i <= Work(ss[0])
  {
    if i > 0 {
      RunsAreBounded(ss, acts, i - 1);
      RunInv(ss, acts, i - 1);
      WorkDecreases(ss[i - 1], acts[i - 1]);
    }
  }

  lemma {:induction false} UpperBound(keys: set<Address>) returns (b: Address)
    ensures forall p :: p in keys ==> p < b
    ensures b != NULL
  {
    if keys == {} {
      b := 1;
    } else {
      var x :| x in keys;
      var below := UpperBound(keys - {x});
      b := if below <= x then x + 1 else below;
      assert forall p :: p in keys ==> p == x || p in keys - {x};
    }
  }

  ghost predicate Finished(s: State)
    requires |s.pcs| == |s.todo|
  {
    forall t :: 0 <= t < |s.pcs| ==> s.pcs[t] == Ready && s.todo[t] == []
  }

  /** Unless every thread has finished its program, some thread can take a step: no deadlock. */
  lemma SomeStepEnabled(s: State) returns (a: Action)
    requires SystemInv(s) && !Finished(s)
    ensures Enabled(s, a)
  {
    var b := UpperBound(s.mem.heap.Keys);
    assert b !in s.mem.heap;
    var c := Choice(b, 0);
    if s.mem.headLock.Held? {
      a := Action(s.mem.headLock.t, c);
      assert ThreadInv(s.mem, a.t, s.pcs[a.t]);
    } else if s.mem.tailLock.Held? {
      a := Action(s.mem.tailLock.t, c);
      assert ThreadInv(s.mem, a.t, s.pcs[a.t]);
    } else {
      var t :| 0 <= t < |s.pcs| && !(s.pcs[t] == Ready && s.todo[t] == []);
      a := Action(t, c);
    }
  }

  /** The values a program asks to enqueue. */
  function PutsIn(ops: seq<Op>): seq<int> {
    if ops == [] then []
    else (match ops[0] case Put(v) => [v] case Take => []) + PutsIn(ops[1..])
  }

  lemma StepFollowsProgram(s: State, a: Action, t: Tid)
    requires SystemInv(s) && Enabled(s, a) && t < |s.pcs|
    ensures |Step(s, a).pcs| == |s.pcs| && |Step(s, a).todo| == |s.todo|
    ensures CalledPuts(Step(s, a).hist, t) + PutsIn(Step(s, a).todo[t]) == CalledPuts(s.hist, t) + PutsIn(s.todo[t])
  {
    if s.pcs[a.t] == Ready {
      Extend(Unbounded, s.hist, Call(a.t, s.todo[a.t][0]));
    } else {
      ExecMemory(s.mem, a.t, s.pcs[a.t], a.choice);
      var o := Exec(s.mem, a.t, s.pcs[a.t], a.choice);
      if o.log == [] {
        assert s.hist + o.log == s.hist;
      } else {
        assert s.hist + o.log == s.hist + [o.log[0]];
        Extend(Unbounded, s.hist, o.log[0]);
      }
    }
  }

  lemma StepCallsProgram(s: State, a: Action, t: Tid)
    requires SystemInv(s) && Enabled(s, a) && t < |s.pcs|
    ensures |Step(s, a).todo| == |s.todo|
    ensures Calls(Step(s, a).hist, t) + Step(s, a).todo[t] == Calls(s.hist, t) + s.todo[t]
  {
    if s.pcs[a.t] == Ready {
      ExtendCalls(s.hist, Call(a.t, s.todo[a.t][0]), t);
      assert s.todo[a.t] == [s.todo[a.t][0]] + s.todo[a.t][1..];
    } else {
      ExecMemory(s.mem, a.t, s.pcs[a.t], a.choice);
      var o := Exec(s.mem, a.t, s.pcs[a.t], a.choice);
      if o.log == [] {
        assert s.hist + o.log == s.hist;
      } else {
        assert s.hist + o.log == s.hist + [o.log[0]];
        ExtendCalls(s.hist, o.log[0], t);
      }
    }
  }

  /** What thread `t` has called and will still call is its program, and so it is with what it asks to
      enqueue. */
  predicate OnProgram(s0: State, s: State, t: Tid) {
    && t < |s.pcs| == |s0.pcs| == |s.todo| == |s0.todo|
    && Calls(s.hist, t) + s.todo[t] == s0.todo[t]
    && CalledPuts(s.hist, t) + PutsIn(s.todo[t]) == PutsIn(s0.todo[t])
  }

  lemma StaysOnProgram(s0: State, s: State, a: Action, t: Tid)
    requires SystemInv(s) && Enabled(s, a) && OnProgram(s0, s, t)
    ensures OnProgram(s0, Step(s, a), t)
  {
    StepFollowsProgram(s, a, t);
    StepCallsProgram(s, a, t);
  }

  lemma {:induction false} CallsFollowProgram(ss: seq<State>, acts: seq<Action>, i: nat, t: Tid)
    requires IsRun(ss, acts) && i < |ss| && t < |ss[0].pcs|
    ensures OnProgram(ss[0], ss[i], t)
  {
    if i > 0 {
      CallsFollowProgram(ss, acts, i - 1, t);
      RunInv(ss, acts, i - 1);
      StaysOnProgram(ss[0], ss[i - 1], acts[i - 1], t);
    }
  }

  /** Every run that cannot be continued has finished all programs, within nine steps per requested
      operation: every operation of every thread, enqueue or dequeue, took effect once, in the order of
      its program; and every value enqueued is either among the values dequeued or still in the list. */
  lemma MaximalRunsComplete(ss: seq<State>, acts: seq<Action>, t: Tid)
    requires IsRun(ss, acts) && t < |ss[0].pcs|
    requires forall a :: !Enabled(ss[|acts|], a)
    ensures |ss[0].pcs| == |ss[0].todo| && |acts| <= Work(ss[0])
    ensures var s := ss[|acts|];
      && |s.pcs| == |s.todo| && Finished(s)
      && Effects(s.hist, t) == ss[0].todo[t]
      && Of(Puts(s.hist), t) == PutsIn(ss[0].todo[t])
      && Values(Puts(s.hist)) == Takes(s.hist) + Contents(s.mem)
  {
    var n := |acts|;
    RunInv(ss, acts, n);
    RunsAreBounded(ss, acts, n);
    if !Finished(ss[n]) {
      var a := SomeStepEnabled(ss[n]);
      assert false;
    }
    CallsFollowProgram(ss, acts, n, t);
    assert PhaseOf(ss[n].hist, t) == PhaseAt(ss[n].pcs[t]);
    EffectsFollowCalls(Unbounded, ss[n].hist, t);
    PutsInProgramOrder(ss[n].hist, t);
    PutsAreTakesThenQueue(Unbounded, ss[n].hist);
  }
}
