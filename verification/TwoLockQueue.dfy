/** The fine-grained MPMC queue: a linked list behind a dummy node, one mutex for the head and one
    for the tail, nodes allocated and deleted by hand.

    The model is a transition system with one step per statement and any number of threads, each
    with its own finite program of calls. Every pointer load or store is one atomic, sequentially
    consistent step. Memory is explicit: `new` may hand out any address that is not allocated, so
    addresses are recycled, and touching or deleting an address that is not allocated is a fault. */
module TwoLockQueue {
  import opened FifoHistory

  type Address = nat

  const NULL: Address := 0

  datatype Node = Node(data: int, next: Address)

  datatype Mutex = Free | Held(t: Tid)

  /** What the threads share. `chain` is bookkeeping: it lists the nodes linked from `head`, and no
      step's effect on the other fields depends on it. */
  datatype Memory = Memory(
    heap: map<Address, Node>,
    head: Address,
    tail: Address,
    headLock: Mutex,
    tailLock: Mutex,
    chain: seq<Address>)

  /** The statement a thread is about to execute, with the locals it has computed. */
  datatype Pc =
    | Ready                                          // between calls
    | EnqCalled(v: int)                              // new_node = new node
    | EnqNew(v: int, n: Address)                     // new_node->data = data
    | EnqFilled(v: int, n: Address)                  // tail_mutex.lock()
    | EnqLocked(v: int, n: Address)                  // load tail
    | EnqTail(v: int, n: Address, last: Address)     // last->next = new_node
    | EnqLinked(v: int, n: Address)                  // tail = new_node
    | EnqMoved(v: int)                               // tail_mutex.unlock()
    | EnqDone(v: int)                                // return
    | DeqCalled                                      // head_mutex.lock()
    | DeqLocked                                      // current_head = head
    | DeqHead(cur: Address)                          // new_head = current_head->next, test
    | DeqEmpty                                       // head_mutex.unlock()
    | DeqNext(cur: Address, succ: Address)           // *data = new_head->data
    | DeqRead(cur: Address, succ: Address, x: int)   // head = new_head
    | DeqMoved(cur: Address, x: int)                 // head_mutex.unlock()
    | DeqUnlocked(cur: Address, x: int)              // delete current_head
    | DeqDone(res: Res)                              // return

  /** The allocator's choice: an address for `new`, and what happens to be stored there. */
  datatype Choice = Choice(addr: Address, junk: int)

  /** The result of one statement: an access to memory that is not allocated, or the new memory,
      the thread's next statement and the events logged. */
  datatype Outcome = Fault | Next(mem: Memory, pc: Pc, log: seq<Event>)

  predicate CanRun(m: Memory, pc: Pc, c: Choice) {
    match pc
    case Ready => false
    case EnqCalled(_) => c.addr != NULL && c.addr !in m.heap
    case EnqFilled(_, _) => m.tailLock == Free
    case DeqCalled => m.headLock == Free
    case _ => true
  }

  function Exec(m: Memory, t: Tid, pc: Pc, c: Choice): Outcome
    requires CanRun(m, pc, c)
  {
    match pc
    case EnqCalled(v) =>
      Next(m.(heap := m.heap[c.addr := Node(c.junk, NULL)]), EnqNew(v, c.addr), [])
    case EnqNew(v, n) =>
      if n !in m.heap then Fault
      else Next(m.(heap := m.heap[n := m.heap[n].(data := v)]), EnqFilled(v, n), [])
    case EnqFilled(v, n) =>
      Next(m.(tailLock := Held(t)), EnqLocked(v, n), [])
    case EnqLocked(v, n) =>
      Next(m, EnqTail(v, n, m.tail), [])
    case EnqTail(v, n, last) =>
      if last !in m.heap then Fault
      else Next(m.(heap := m.heap[last := m.heap[last].(next := n)], chain := m.chain + [n]),
                EnqLinked(v, n), [Lin(t, Put(v), Ok)])
    case EnqLinked(v, n) =>
      Next(m.(tail := n), EnqMoved(v), [])
    case EnqMoved(v) =>
      Next(m.(tailLock := Free), EnqDone(v), [])
    case EnqDone(_) =>
      Next(m, Ready, [Ret(t, Ok)])
    case DeqCalled =>
      Next(m.(headLock := Held(t)), DeqLocked, [])
    case DeqLocked =>
      Next(m, DeqHead(m.head), [])
    case DeqHead(cur) =>
      if cur !in m.heap then Fault
      else if m.heap[cur].next == NULL then Next(m, DeqEmpty, [Lin(t, Take, Empty)])
      else Next(m, DeqNext(cur, m.heap[cur].next), [])
    case DeqEmpty =>
      Next(m.(headLock := Free), DeqDone(Empty), [])
    case DeqNext(cur, succ) =>
      if succ !in m.heap then Fault
      else Next(m, DeqRead(cur, succ, m.heap[succ].data), [])
    case DeqRead(cur, succ, x) =>
      Next(m.(head := succ, chain := if m.chain == [] then [] else m.chain[1..]),
           DeqMoved(cur, x), [Lin(t, Take, Got(x))])
    case DeqMoved(cur, x) =>
      Next(m.(headLock := Free), DeqUnlocked(cur, x), [])
    case DeqUnlocked(cur, x) =>
      if cur !in m.heap then Fault
      else Next(m.(heap := m.heap - {cur}), DeqDone(Got(x)), [])
    case DeqDone(res) =>
      Next(m, Ready, [Ret(t, res)])
  }

  // ----- the system of threads -----

  /** `hist` is bookkeeping: it records calls, effects and returns. */
  datatype State = State(mem: Memory, pcs: seq<Pc>, todo: seq<seq<Op>>, fault: bool, hist: seq<Event>)

  datatype Action = Action(t: Tid, choice: Choice)

  ghost predicate Initial(s: State) {
    && s.mem.head != NULL && s.mem.tail == s.mem.head && s.mem.chain == [s.mem.head]
    && s.mem.heap.Keys == {s.mem.head} && s.mem.heap[s.mem.head].next == NULL
    && s.mem.headLock == Free && s.mem.tailLock == Free
    && |s.pcs| == |s.todo|
    && (forall t :: 0 <= t < |s.pcs| ==> s.pcs[t] == Ready)
    && !s.fault && s.hist == []
  }

  predicate Enabled(s: State, a: Action) {
    && !s.fault
    && a.t < |s.pcs| == |s.todo|
    && if s.pcs[a.t] == Ready then s.todo[a.t] != [] else CanRun(s.mem, s.pcs[a.t], a.choice)
  }

  function FirstStatement(op: Op): Pc {
    match op case Put(v) => EnqCalled(v) case Take => DeqCalled
  }

  function Step(s: State, a: Action): State
    requires Enabled(s, a)
  {
    var t := a.t;
    if s.pcs[t] == Ready then
      var op := s.todo[t][0];
      s.(pcs := s.pcs[t := FirstStatement(op)], todo := s.todo[t := s.todo[t][1..]], hist := s.hist + [Call(t, op)])
    else match Exec(s.mem, t, s.pcs[t], a.choice)
      case Fault => s.(fault := true)
      case Next(m, pc, log) => s.(mem := m, pcs := s.pcs[t := pc], hist := s.hist + log)
  }

  /** A run: consecutive states, each the result of an enabled step of the one before. */
  ghost predicate IsRun(ss: seq<State>, acts: seq<Action>) {
    && |ss| == |acts| + 1
    && Initial(ss[0])
    && forall i {:trigger acts[i]} :: 0 <= i < |acts| ==> Enabled(ss[i], acts[i]) && ss[i + 1] == Step(ss[i], acts[i])
  }

  // ----- the memory invariant -----

  function LastOf(c: seq<Address>): Address {
    if c == [] then NULL else c[|c| - 1]
  }

  /** `chain` is exactly the list that starts at `head`; with the tail mutex free, `tail` is its
      last node. */
  ghost predicate MemoryInv(m: Memory) {
    && NULL !in m.heap
    && m.chain != [] && m.chain[0] == m.head
    && (forall i :: 0 <= i < |m.chain| ==> m.chain[i] in m.heap)
    && (forall i, j :: 0 <= i < j < |m.chain| ==> m.chain[i] != m.chain[j])
    && (forall i :: 0 <= i < |m.chain| - 1 ==> m.heap[m.chain[i]].next == m.chain[i + 1])
    && m.heap[LastOf(m.chain)].next == NULL
    && (m.tailLock == Free ==> m.tail == LastOf(m.chain))
  }

  predicate HoldsTail(pc: Pc) {
    pc.EnqLocked? || pc.EnqTail? || pc.EnqLinked? || pc.EnqMoved?
  }

  predicate HoldsHead(pc: Pc) {
    pc.DeqLocked? || pc.DeqHead? || pc.DeqEmpty? || pc.DeqNext? || pc.DeqRead? || pc.DeqMoved?
  }

  /** The thread has a node to itself: one not linked yet, or one unlinked and not yet deleted. */
  predicate Owns(pc: Pc) {
    pc.EnqNew? || pc.EnqFilled? || pc.EnqLocked? || pc.EnqTail? || pc.DeqMoved? || pc.DeqUnlocked?
  }

  function Owned(pc: Pc): Address
    requires Owns(pc)
  {
    match pc
    case DeqMoved(cur, _) => cur
    case DeqUnlocked(cur, _) => cur
    case _ => pc.n
  }

  predicate OwnsAt(pc: Pc, p: Address) {
    Owns(pc) && Owned(pc) == p
  }

  /** What the locals of one thread say about memory. At `EnqLinked` nothing is said about `tail`:
      in that window it may name a node that a dequeuer has unlinked, deleted or even recycled. */
  predicate LocalInv(m: Memory, pc: Pc) {
    match pc
    case EnqNew(_, n) => n in m.heap && m.heap[n].next == NULL
    case EnqFilled(v, n) => n in m.heap && m.heap[n] == Node(v, NULL)
    case EnqLocked(v, n) => n in m.heap && m.heap[n] == Node(v, NULL) && m.tail == LastOf(m.chain)
    case EnqTail(v, n, last) => n in m.heap && m.heap[n] == Node(v, NULL) && m.tail == last == LastOf(m.chain)
    case EnqLinked(_, n) => n == LastOf(m.chain)
    case EnqMoved(_) => m.tail == LastOf(m.chain)
    case DeqHead(cur) => cur == m.head
    case DeqNext(cur, succ) => cur == m.head && |m.chain| > 1 && m.chain[1] == succ
    case DeqRead(cur, succ, x) =>
      cur == m.head && |m.chain| > 1 && m.chain[1] == succ && succ in m.heap && m.heap[succ].data == x
    case _ => true
  }

  predicate ThreadInv(m: Memory, t: Tid, pc: Pc) {
    && (HoldsTail(pc) <==> m.tailLock == Held(t))
    && (HoldsHead(pc) <==> m.headLock == Held(t))
    && (Owns(pc) ==> Owned(pc) in m.heap && Owned(pc) !in m.chain)
    && LocalInv(m, pc)
  }

  predicate Apart(pc: Pc, other: Pc) {
    Owns(pc) && Owns(other) ==> Owned(pc) != Owned(other)
  }

  lemma ExecMemory(m: Memory, t: Tid, pc: Pc, c: Choice)
    requires MemoryInv(m) && ThreadInv(m, t, pc) && CanRun(m, pc, c)
    ensures var o := Exec(m, t, pc, c); o.Next? && MemoryInv(o.mem)
  {
  }

  lemma ExecOwn(m: Memory, t: Tid, pc: Pc, c: Choice)
    requires MemoryInv(m) && ThreadInv(m, t, pc) && CanRun(m, pc, c)
    ensures var o := Exec(m, t, pc, c); o.Next? && ThreadInv(o.mem, t, o.pc)
  {
  }

  /** A statement of thread `t` leaves what any other thread relies on alone. */
  lemma ExecOther(m: Memory, t: Tid, pc: Pc, c: Choice, u: Tid, other: Pc)
    requires MemoryInv(m) && ThreadInv(m, t, pc) && CanRun(m, pc, c)
    requires u != t && ThreadInv(m, u, other) && Apart(pc, other)
    ensures var o := Exec(m, t, pc, c); o.Next? && ThreadInv(o.mem, u, other) && Apart(o.pc, other)
  {
  }

  /** No statement leaks a node: what is live stays linked or owned. */
  lemma ExecNoLeak(m: Memory, t: Tid, pc: Pc, c: Choice, p: Address)
    requires MemoryInv(m) && ThreadInv(m, t, pc) && CanRun(m, pc, c)
    requires var o := Exec(m, t, pc, c); o.Next? && p in o.mem.heap
    ensures var o := Exec(m, t, pc, c);
      p in o.mem.chain || OwnsAt(o.pc, p) || (p in m.heap && p !in m.chain && !OwnsAt(pc, p))
  {
  }

  // ----- what the calls see -----

  function Datum(heap: map<Address, Node>, p: Address): int {
    if p in heap then heap[p].data else 0
  }

  function Data(heap: map<Address, Node>, nodes: seq<Address>): seq<int> {
    seq(|nodes|, i requires 0 <= i < |nodes| => Datum(heap, nodes[i]))
  }

  /** The queue: the data of the linked nodes after the dummy. */
  function Contents(m: Memory): seq<int> {
    if m.chain == [] then [] else Data(m.heap, m.chain[1..])
  }

  function PhaseAt(pc: Pc): Phase {
    match pc
    case Ready => Idle
    case EnqCalled(v) => Pending(Put(v))
    case EnqNew(v, _) => Pending(Put(v))
    case EnqFilled(v, _) => Pending(Put(v))
    case EnqLocked(v, _) => Pending(Put(v))
    case EnqTail(v, _, _) => Pending(Put(v))
    case EnqLinked(v, _) => Committed(Put(v), Ok)
    case EnqMoved(v) => Committed(Put(v), Ok)
    case EnqDone(v) => Committed(Put(v), Ok)
    case DeqEmpty => Committed(Take, Empty)
    case DeqMoved(_, x) => Committed(Take, Got(x))
    case DeqUnlocked(_, x) => Committed(Take, Got(x))
    case DeqDone(res) => Committed(Take, res)
    case _ => Pending(Take)
  }

  ghost predicate Explains(h: seq<Event>, m: Memory) {
    Accepted(Unbounded, h) && QueueOf(Unbounded, h) == Contents(m)
  }

  /** Only storing `tail->next` and storing `head` change the queue. */
  lemma ExecContents(m: Memory, t: Tid, pc: Pc, c: Choice)
    requires MemoryInv(m) && ThreadInv(m, t, pc) && CanRun(m, pc, c)
    ensures Exec(m, t, pc, c).Next?
    ensures var m' := Exec(m, t, pc, c).mem;
      match pc
      case EnqTail(v, _, _) => Contents(m') == Contents(m) + [v]
      case DeqRead(_, _, x) => Contents(m) == [x] + Contents(m')
      case _ => Contents(m') == Contents(m)
  {
    var o := Exec(m, t, pc, c);
    forall i | 0 <= i < |m.chain|
      ensures Datum(o.mem.heap, m.chain[i]) == Datum(m.heap, m.chain[i])
    {
      if pc.DeqUnlocked? {
        assert m.chain[i] != pc.cur;
      }
    }
    if pc.EnqTail? {
      assert o.mem.chain[1..] == m.chain[1..] + [pc.n];
    }
  }

  /** Each statement logs what the sequential queue would answer, and changes the queue as it would. */
  lemma ExecFaithful(m: Memory, t: Tid, pc: Pc, c: Choice)
    requires MemoryInv(m) && ThreadInv(m, t, pc) && CanRun(m, pc, c)
    ensures var o := Exec(m, t, pc, c);
      o.Next? && Announced(Unbounded, t, o.log, Contents(m), PhaseAt(pc), Contents(o.mem), PhaseAt(o.pc))
  {
    ExecContents(m, t, pc, c);
    if pc.DeqHead? {
      assert |Contents(m)| == |m.chain| - 1;
      assert |m.chain| > 1 ==> m.heap[m.chain[0]].next == m.chain[1];
    }
  }

  // ----- the invariant of the system -----

  ghost predicate OwnedBySome(s: State, p: Address) {
    exists t :: 0 <= t < |s.pcs| && OwnsAt(s.pcs[t], p)
  }

  predicate InRange(lock: Mutex, n: nat) {
    lock.Held? ==> lock.t < n
  }

  ghost predicate SystemInv(s: State) {
    && !s.fault && |s.pcs| == |s.todo|
    && MemoryInv(s.mem)
    && InRange(s.mem.headLock, |s.pcs|) && InRange(s.mem.tailLock, |s.pcs|)
    && (forall t :: 0 <= t < |s.pcs| ==> ThreadInv(s.mem, t, s.pcs[t]))
    && (forall t, u :: 0 <= t < |s.pcs| && 0 <= u < |s.pcs| && t != u ==> Apart(s.pcs[t], s.pcs[u]))
    && (forall p :: p in s.mem.heap ==> p in s.mem.chain || OwnedBySome(s, p))
  }

  ghost predicate HistoryInv(s: State) {
    && Explains(s.hist, s.mem)
    && (forall t :: 0 <= t < |s.pcs| ==> PhaseOf(s.hist, t) == PhaseAt(s.pcs[t]))
  }

  lemma InitialInv(s: State)
    requires Initial(s)
    ensures SystemInv(s) && HistoryInv(s)
  {
  }

  lemma StartInv(s: State, a: Action)
    requires SystemInv(s) && Enabled(s, a) && s.pcs[a.t] == Ready
    ensures SystemInv(Step(s, a))
  {
    var s' := Step(s, a);
    assert ThreadInv(s.mem, a.t, Ready);
    assert ThreadInv(s'.mem, a.t, s'.pcs[a.t]);
    forall p | p in s.mem.heap && p !in s.mem.chain
      ensures OwnedBySome(s', p)
    {
      var t :| 0 <= t < |s.pcs| && OwnsAt(s.pcs[t], p);
      assert OwnsAt(s'.pcs[t], p);
    }
  }

  lemma ExecInv(s: State, a: Action)
    requires SystemInv(s) && Enabled(s, a) && s.pcs[a.t] != Ready
    ensures SystemInv(Step(s, a))
  {
    var s', t, pc := Step(s, a), a.t, s.pcs[a.t];
    ExecMemory(s.mem, t, pc, a.choice);
    ExecOwn(s.mem, t, pc, a.choice);
    var o := Exec(s.mem, t, pc, a.choice);
    forall u | 0 <= u < |s.pcs| && u != t
      ensures ThreadInv(s'.mem, u, s'.pcs[u]) && Apart(s'.pcs[t], s'.pcs[u])
    {
      ExecOther(s.mem, t, pc, a.choice, u, s.pcs[u]);
    }
    forall p | p in s'.mem.heap && p !in s'.mem.chain
      ensures OwnedBySome(s', p)
    {
      ExecNoLeak(s.mem, t, pc, a.choice, p);
      if OwnsAt(o.pc, p) {
        assert OwnsAt(s'.pcs[t], p);
      } else {
        var u :| 0 <= u < |s.pcs| && OwnsAt(s.pcs[u], p);
        assert OwnsAt(s'.pcs[u], p);
      }
    }
  }

  lemma StartHistory(s: State, a: Action)
    requires HistoryInv(s) && Enabled(s, a) && s.pcs[a.t] == Ready
    ensures HistoryInv(Step(s, a))
  {
    Extend(Unbounded, s.hist, Call(a.t, s.todo[a.t][0]));
  }

  lemma LoggedHistory(s: State, t: Tid, m: Memory, pc: Pc, log: seq<Event>)
    requires HistoryInv(s) && t < |s.pcs|
    requires Announced(Unbounded, t, log, Contents(s.mem), PhaseAt(s.pcs[t]), Contents(m), PhaseAt(pc))
    ensures HistoryInv(s.(mem := m, pcs := s.pcs[t := pc], hist := s.hist + log))
  {
    LogKeeps(Unbounded, t, s.hist, log, Contents(m), PhaseAt(pc));
  }

  lemma StepInv(s: State, a: Action)
    requires SystemInv(s) && HistoryInv(s) && Enabled(s, a)
    ensures SystemInv(Step(s, a)) && HistoryInv(Step(s, a))
  {
    if s.pcs[a.t] == Ready {
      StartInv(s, a);
      StartHistory(s, a);
    } else {
      ExecInv(s, a);
      ExecFaithful(s.mem, a.t, s.pcs[a.t], a.choice);
      var o := Exec(s.mem, a.t, s.pcs[a.t], a.choice);
      LoggedHistory(s, a.t, o.mem, o.pc, o.log);
    }
  }

  lemma {:induction false} RunInv(ss: seq<State>, acts: seq<Action>, i: nat)
    requires IsRun(ss, acts) && i < |ss|
    ensures SystemInv(ss[i]) && HistoryInv(ss[i])
  {
    if i == 0 {
      InitialInv(ss[0]);
    } else {
      RunInv(ss, acts, i - 1);
      StepInv(ss[i - 1], acts[i - 1]);
    }
  }
}
