/** The single-producer single-consumer ring buffers, one step per load, store or buffer access of
    `try_push` and `try_pop`, with any interleaving of one producer and one consumer.

    `Wrapped` keeps its indices below the size and gives up one slot; `Monotone` lets them grow and
    uses every slot. Both pass their indices through a 32-bit `increment`. `Guarded(limit)` is the
    reference ring: unbounded indices, at most `limit` entries. */
module RingMachine {
  import opened FifoHistory
  import opened Int32
  import opened Modulo

  datatype Kind = Wrapped | Monotone | Guarded(limit: nat)

  /** The statement the producer is about to execute. */
  datatype Producer =
    | PIdle                                     // between calls
    | PCalled(v: int)                           // load write, increment it
    | PLoaded(v: int, tail: int, next: int)     // load read, test for room
    | PRoom(v: int, tail: int, next: int)       // store into the buffer
    | PStored(v: int, tail: int, next: int)     // store write
    | PDone(res: Res)                           // return

  /** The statement the consumer is about to execute. */
  datatype Consumer =
    | CIdle                                     // between calls
    | CCalled                                   // load read
    | CLoaded(head: int)                        // load write, test for data
    | CSome(head: int)                          // load from the buffer
    | CRead(head: int, x: int)                  // store read
    | CDone(res: Res)                           // return

  /** `fault` records an access outside the buffer; `hist` records calls, effects and returns. */
  datatype Ring = Ring(
    write: int,
    read: int,
    buf: seq<int>,
    p: Producer,
    c: Consumer,
    fault: bool,
    hist: seq<Event>)

  /** The scheduler runs one side; `v` is used when the producer starts a call. */
  datatype Act = Produce(v: int) | Consume

  const PRODUCER: Tid := 0
  const CONSUMER: Tid := 1

  // ----- what the kinds do differently -----

  function Increment(k: Kind, size: nat, n: int): int
    requires size > 0
  {
    match k
    case Wrapped => Remainder(Successor(n), size)
    case Monotone => Successor(n)
    case Guarded(_) => n + 1
  }

  predicate Room(k: Kind, size: nat, tail: int, next: int, read: int) {
    match k
    case Wrapped => next != read
    case Monotone => tail - read <= size - 1
    case Guarded(limit) => tail - read < limit
  }

  function Slot(k: Kind, size: nat, i: int): int
    requires size > 0
  {
    if k.Wrapped? then i else Remainder(i, size)
  }

  // ----- the steps -----

  function Initial(buf: seq<int>): Ring {
    Ring(0, 0, buf, PIdle, CIdle, false, [])
  }

  function StepProducer(k: Kind, s: Ring, v: int): (s': Ring)
    requires |s.buf| > 0
    ensures |s'.buf| == |s.buf|
  {
    var size := |s.buf|;
    match s.p
    case PIdle => s.(p := PCalled(v), hist := s.hist + [Call(PRODUCER, Put(v))])
    case PCalled(v) => s.(p := PLoaded(v, s.write, Increment(k, size, s.write)))
    case PLoaded(v, tail, next) =>
      if Room(k, size, tail, next, s.read) then s.(p := PRoom(v, tail, next))
      else s.(p := PDone(Full), hist := s.hist + [Lin(PRODUCER, Put(v), Full)])
    case PRoom(v, tail, next) =>
      var i := Slot(k, size, tail);
      if 0 <= i < size then s.(buf := s.buf[i := v], p := PStored(v, tail, next)) else s.(fault := true)
    case PStored(v, tail, next) =>
      s.(write := next, p := PDone(Ok), hist := s.hist + [Lin(PRODUCER, Put(v), Ok)])
    case PDone(res) => s.(p := PIdle, hist := s.hist + [Ret(PRODUCER, res)])
  }

  function StepConsumer(k: Kind, s: Ring): (s': Ring)
    requires |s.buf| > 0
    ensures |s'.buf| == |s.buf|
  {
    var size := |s.buf|;
    match s.c
    case CIdle => s.(c := CCalled, hist := s.hist + [Call(CONSUMER, Take)])
    case CCalled => s.(c := CLoaded(s.read))
    case CLoaded(head) =>
      if head == s.write then s.(c := CDone(Empty), hist := s.hist + [Lin(CONSUMER, Take, Empty)])
      else s.(c := CSome(head))
    case CSome(head) =>
      var i := Slot(k, size, head);
      if 0 <= i < size then s.(c := CRead(head, s.buf[i])) else s.(fault := true)
    case CRead(head, x) =>
      s.(read := Increment(k, size, head), c := CDone(Got(x)), hist := s.hist + [Lin(CONSUMER, Take, Got(x))])
    case CDone(res) => s.(c := CIdle, hist := s.hist + [Ret(CONSUMER, res)])
  }

  function Step(k: Kind, s: Ring, a: Act): (s': Ring)
    requires |s.buf| > 0
    ensures |s'.buf| == |s.buf|
  {
    match a
    case Produce(v) => StepProducer(k, s, v)
    case Consume => StepConsumer(k, s)
  }

  function Run(k: Kind, s: Ring, acts: seq<Act>): (s': Ring)
    requires |s.buf| > 0
    ensures |s'.buf| == |s.buf|
    decreases |acts|
  {
    if acts == [] then s
    else Step(k, Run(k, s, acts[..|acts| - 1]), acts[|acts| - 1])
  }

  // ----- the reference ring -----

  /** The entry `i` places after the read index. */
  function Cell(g: Ring, i: int): int
    requires |g.buf| > 0
  {
    g.buf[(g.read + i) % |g.buf|]
  }

  /** The queue that callers see. */
  function Contents(g: Ring): seq<int>
    requires |g.buf| > 0
  {
    if g.write < g.read then []
    else seq(g.write - g.read, i requires 0 <= i < g.write - g.read => Cell(g, i))
  }

  function ProducerPhase(p: Producer): Phase {
    match p
    case PIdle => Idle
    case PCalled(v) => Pending(Put(v))
    case PLoaded(v, _, _) => Pending(Put(v))
    case PRoom(v, _, _) => Pending(Put(v))
    case PStored(v, _, _) => Pending(Put(v))
    case PDone(res) => Committed(Put(0), res)
  }

  function ConsumerPhase(c: Consumer): Phase {
    match c
    case CIdle => Idle
    case CDone(res) => Committed(Take, res)
    case _ => Pending(Take)
  }

  /** The phase of the producer, up to the value of an operation that has taken effect. */
  predicate ProducerAgrees(h: seq<Event>, p: Producer) {
    if p.PDone? then PhaseOf(h, PRODUCER).Committed? && PhaseOf(h, PRODUCER).res == p.res
    else PhaseOf(h, PRODUCER) == ProducerPhase(p)
  }

  /** Stale as they may be, the locals of each side still say something: the producer's `tail` is
      `write`, the room it saw is still there, and the slot it filled and the one the consumer reads
      are out of the other side's reach. */
  predicate RefInv(g: Ring, limit: nat) {
    && 0 < |g.buf| && limit <= |g.buf| && !g.fault
    && 0 <= g.read <= g.write <= g.read + limit
    && (match g.p
        case PLoaded(_, tail, next) => tail == g.write && next == g.write + 1
        case PRoom(_, tail, next) => tail == g.write && next == g.write + 1 && g.write - g.read < limit
        case PStored(v, tail, next) =>
          tail == g.write && next == g.write + 1 && g.write - g.read < limit && g.buf[g.write % |g.buf|] == v
        case _ => true)
    && (match g.c
        case CLoaded(head) => head == g.read
        case CSome(head) => head == g.read < g.write
        case CRead(head, x) => head == g.read < g.write && x == g.buf[g.read % |g.buf|]
        case _ => true)
  }

  predicate RefHistory(g: Ring, limit: nat)
    requires |g.buf| > 0
  {
    && Accepted(Bounded(limit), g.hist)
    && QueueOf(Bounded(limit), g.hist) == Contents(g)
    && ProducerAgrees(g.hist, g.p)
    && PhaseOf(g.hist, CONSUMER) == ConsumerPhase(g.c)
  }

  /** The slot the producer fills is none of those in use. */
  lemma FreshSlot(g: Ring, limit: nat, i: nat)
    requires RefInv(g, limit) && g.write - g.read < limit && i < g.write - g.read
    ensures (g.read + i) % |g.buf| != g.write % |g.buf|
  {
    SlotsDiffer(g.read + i, g.write, |g.buf|);
  }

  lemma ProducerInv(g: Ring, limit: nat, v: int)
    requires RefInv(g, limit)
    ensures RefInv(StepProducer(Guarded(limit), g, v), limit)
  {
    if g.p.PRoom? && g.c.CRead? {
      FreshSlot(g, limit, 0);
    }
  }

  /** Filling the fresh slot leaves the entries in use alone. */
  lemma FillKeepsCells(g: Ring, limit: nat, i: nat, v: int)
    requires RefInv(g, limit) && g.p.PRoom? && i < g.write - g.read
    ensures Cell(StepProducer(Guarded(limit), g, v), i) == Cell(g, i)
  {
    FreshSlot(g, limit, i);
  }

  /** Contents are equal when the entries are. */
  lemma SameContents(g: Ring, g': Ring)
    requires |g.buf| > 0 && |g'.buf| > 0 && g.read <= g.write && g'.write - g'.read == g.write - g.read
    requires forall i :: 0 <= i < g.write - g.read ==> Cell(g', i) == Cell(g, i)
    ensures Contents(g') == Contents(g)
  {
  }

  /** Publishing the slot after the last entry appends it. */
  lemma PublishedContents(g: Ring, g': Ring)
    requires |g.buf| > 0 && g.read <= g.write && g'.buf == g.buf && g'.read == g.read && g'.write == g.write + 1
    ensures Contents(g') == Contents(g) + [g.buf[g.write % |g.buf|]]
  {
    assert forall i :: 0 <= i < g.write - g.read ==> Cell(g', i) == Cell(g, i);
    assert Cell(g', g.write - g.read) == g.buf[g.write % |g.buf|];
  }

  lemma ProducerContents(g: Ring, limit: nat, v: int)
    requires RefInv(g, limit)
    ensures Contents(StepProducer(Guarded(limit), g, v)) ==
      if g.p.PStored? then Contents(g) + [g.p.v] else Contents(g)
  {
    var g' := StepProducer(Guarded(limit), g, v);
    if g.p.PStored? {
      PublishedContents(g, g');
    } else if g.p.PRoom? {
      forall i | 0 <= i < g.write - g.read
        ensures Cell(g', i) == Cell(g, i)
      {
        FillKeepsCells(g, limit, i, v);
      }
      SameContents(g, g');
    } else {
      SameContents(g, g');
    }
  }

  lemma ConsumerInv(g: Ring, limit: nat)
    requires RefInv(g, limit)
    ensures RefInv(StepConsumer(Guarded(limit), g), limit)
    ensures Contents(StepConsumer(Guarded(limit), g)) ==
      if g.c.CRead? then Contents(g)[1..] else Contents(g)
    ensures g.c.CRead? ==> Contents(g) != [] && Contents(g)[0] == g.c.x
  {
    var g' := StepConsumer(Guarded(limit), g);
    if g.c.CRead? {
      assert Cell(g, 0) == g.c.x;
      forall i | 0 <= i < |Contents(g')|
        ensures Cell(g', i) == Cell(g, i + 1)
      {
      }
    } else {
      assert forall i :: 0 <= i < |Contents(g)| ==> Cell(g', i) == Cell(g, i);
    }
  }

  /** The event the producer's step logs is the answer of the bounded queue at that moment. */
  lemma ProducerHistory(g: Ring, limit: nat, v: int)
    requires RefInv(g, limit) && RefHistory(g, limit)
    ensures RefHistory(StepProducer(Guarded(limit), g, v), limit)
  {
    ProducerContents(g, limit, v);
    match g.p {
      case PIdle => Extend(Bounded(limit), g.hist, Call(PRODUCER, Put(v)));
      case PLoaded(w, _, _) =>
        if g.write - g.read == limit {
          Extend(Bounded(limit), g.hist, Lin(PRODUCER, Put(w), Full));
        }
      case PStored(w, _, _) => Extend(Bounded(limit), g.hist, Lin(PRODUCER, Put(w), Ok));
      case PDone(res) => Extend(Bounded(limit), g.hist, Ret(PRODUCER, res));
      case _ =>
    }
  }

  lemma ConsumerTakes(g: Ring, limit: nat)
    requires RefInv(g, limit) && RefHistory(g, limit) && g.c.CRead?
    ensures RefHistory(StepConsumer(Guarded(limit), g), limit)
  {
    ConsumerInv(g, limit);
    Extend(Bounded(limit), g.hist, Lin(CONSUMER, Take, Got(g.c.x)));
  }

  lemma ConsumerTests(g: Ring, limit: nat)
    requires RefInv(g, limit) && RefHistory(g, limit) && g.c.CLoaded?
    ensures RefHistory(StepConsumer(Guarded(limit), g), limit)
  {
    ConsumerInv(g, limit);
    if g.c.head == g.write {
      Extend(Bounded(limit), g.hist, Lin(CONSUMER, Take, Empty));
    }
  }

  /** The event the consumer's step logs is the answer of the bounded queue at that moment. */
  lemma ConsumerHistory(g: Ring, limit: nat)
    requires RefInv(g, limit) && RefHistory(g, limit)
    ensures RefHistory(StepConsumer(Guarded(limit), g), limit)
  {
    match g.c {
      case CIdle =>
        ConsumerInv(g, limit);
        Extend(Bounded(limit), g.hist, Call(CONSUMER, Take));
      case CLoaded(_) => ConsumerTests(g, limit);
      case CRead(_, _) => ConsumerTakes(g, limit);
      case CDone(res) =>
        ConsumerInv(g, limit);
        Extend(Bounded(limit), g.hist, Ret(CONSUMER, res));
      case _ => ConsumerInv(g, limit);
    }
  }

  /** Every run of the reference ring keeps its invariant and is a run of a bounded FIFO queue. */
  lemma {:induction false} RefRun(buf: seq<int>, limit: nat, acts: seq<Act>)
    requires 0 < |buf| && limit <= |buf|
    ensures RefInv(Run(Guarded(limit), Initial(buf), acts), limit)
    ensures RefHistory(Run(Guarded(limit), Initial(buf), acts), limit)
    decreases |acts|
  {
    if acts != [] {
      RefRun(buf, limit, acts[..|acts| - 1]);
      var g := Run(Guarded(limit), Initial(buf), acts[..|acts| - 1]);
      match acts[|acts| - 1] {
        case Produce(v) =>
          ProducerInv(g, limit, v);
          ProducerHistory(g, limit, v);
        case Consume =>
          ConsumerInv(g, limit);
          ConsumerHistory(g, limit);
      }
    }
  }

  lemma RefReachable(buf: seq<int>, limit: nat, acts: seq<Act>)
    requires 0 < |buf| && limit <= |buf|
    ensures RefInv(Run(Guarded(limit), Initial(buf), acts), limit)
  {
    RefRun(buf, limit, acts);
  }
}
