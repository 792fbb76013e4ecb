/** The two rings of the source are images of the reference ring, step for step and for every
    interleaving; so both are bounded FIFO queues, as long as their 32-bit increments are exact. */
module RingTheorems {
  import opened FifoHistory
  import opened Int32
  import opened Modulo
  import opened RingMachine

  // ----- a ring as the image of the reference ring -----

  /** How many entries a ring of this kind can hold. */
  function Limit(k: Kind, size: nat): int {
    match k
    case Wrapped => size - 1
    case Monotone => size
    case Guarded(limit) => limit
  }

  /** The index a ring of this kind stores for the reference index `n`. */
  function Index(k: Kind, size: nat, n: int): int
    requires size > 0
  {
    if k.Wrapped? then n % size else n
  }

  function ProducerImage(k: Kind, size: nat, p: Producer): Producer
    requires size > 0
  {
    match p
    case PLoaded(v, tail, next) => PLoaded(v, Index(k, size, tail), Index(k, size, next))
    case PRoom(v, tail, next) => PRoom(v, Index(k, size, tail), Index(k, size, next))
    case PStored(v, tail, next) => PStored(v, Index(k, size, tail), Index(k, size, next))
    case _ => p
  }

  function ConsumerImage(k: Kind, size: nat, c: Consumer): Consumer
    requires size > 0
  {
    match c
    case CLoaded(head) => CLoaded(Index(k, size, head))
    case CSome(head) => CSome(Index(k, size, head))
    case CRead(head, x) => CRead(Index(k, size, head), x)
    case _ => c
  }

  function Image(k: Kind, g: Ring): Ring
    requires |g.buf| > 0
  {
    var size := |g.buf|;
    Ring(Index(k, size, g.write), Index(k, size, g.read), g.buf,
         ProducerImage(k, size, g.p), ConsumerImage(k, size, g.c), g.fault, g.hist)
  }

  /** Indices for which every increment made from here on, up to the next call, gives the next index. At
      size 2^31 the only increment that overflows is undone by the remainder. */
  predicate Narrow(k: Kind, g: Ring) {
    match k
    case Wrapped => |g.buf| <= INT_MAX + 1
    case Monotone =>
      g.write <= INT_MAX && (g.p.PCalled? || g.p.PLoaded? || g.p.PRoom? || g.p.PStored? ==> g.write < INT_MAX)
    case Guarded(_) => true
  }

  lemma IncrementImage(k: Kind, size: nat, n: nat)
    requires size > 0 && (k.Wrapped? ==> size <= INT_MAX + 1) && (k.Monotone? ==> n < INT_MAX)
    ensures Increment(k, size, Index(k, size, n)) == Index(k, size, n + 1)
  {
    match k {
      case Wrapped =>
        NextSlot(n, size);
        if n % size < INT_MAX {
          SuccessorExact(n % size);
        } else {
          WrapAround();
        }
      case Monotone => SuccessorExact(n);
      case Guarded(_) =>
    }
  }

  /** At size 2^31 the remainder undoes the overflow of the last index. */
  lemma WrapAround()
    ensures Remainder(Successor(INT_MAX), INT_MAX + 1) == 0
  {
  }

  lemma ProducerStepImage(k: Kind, g: Ring, v: int)
    requires 0 < |g.buf| && 0 <= Limit(k, |g.buf|) && RefInv(g, Limit(k, |g.buf|)) && Narrow(k, g)
    ensures StepProducer(k, Image(k, g), v) == Image(k, StepProducer(Guarded(Limit(k, |g.buf|)), g, v))
  {
    var size := |g.buf|;
    match g.p {
      case PCalled(_) => IncrementImage(k, size, g.write);
      case PLoaded(_, tail, next) =>
        if k.Wrapped? {
          SameSlot(g.read, next, size);
        }
      case _ =>
    }
  }

  lemma ConsumerStepImage(k: Kind, g: Ring)
    requires 0 < |g.buf| && 0 <= Limit(k, |g.buf|) && RefInv(g, Limit(k, |g.buf|)) && Narrow(k, g)
    ensures StepConsumer(k, Image(k, g)) == Image(k, StepConsumer(Guarded(Limit(k, |g.buf|)), g))
  {
    var size := |g.buf|;
    match g.c {
      case CLoaded(head) =>
        if k.Wrapped? {
          SameSlot(head, g.write, size);
        }
      case CRead(head, _) => IncrementImage(k, size, head);
      case _ =>
    }
  }

  lemma StepImage(k: Kind, g: Ring, a: Act)
    requires 0 < |g.buf| && 0 <= Limit(k, |g.buf|) && RefInv(g, Limit(k, |g.buf|)) && Narrow(k, g)
    ensures Step(k, Image(k, g), a) == Image(k, Step(Guarded(Limit(k, |g.buf|)), g, a))
  {
    match a {
      case Produce(v) => ProducerStepImage(k, g, v);
      case Consume => ConsumerStepImage(k, g);
    }
  }

  /** The wrapped ring runs in lockstep with the reference ring limited to one entry less than its
      size: same buffer, same answers, and each index the remainder of the unbounded one. */
  lemma {:induction false} WrappedIsGuarded(buf: seq<int>, acts: seq<Act>)
    requires 0 < |buf| <= INT_MAX + 1
    ensures Run(Wrapped, Initial(buf), acts) == Image(Wrapped, Run(Guarded(|buf| - 1), Initial(buf), acts))
    decreases |acts|
  {
    if acts != [] {
      var before := acts[..|acts| - 1];
      WrappedIsGuarded(buf, before);
      RefReachable(buf, |buf| - 1, before);
      StepImage(Wrapped, Run(Guarded(|buf| - 1), Initial(buf), before), acts[|acts| - 1]);
    }
  }

  /** `try_push` is called only while the write index is below INT_MAX. */
  predicate CallsInRange(buf: seq<int>, acts: seq<Act>)
    requires |buf| > 0
    decreases |acts|
  {
    acts == [] ||
    var before := acts[..|acts| - 1];
    var s := Run(Monotone, Initial(buf), before);
    CallsInRange(buf, before) && (acts[|acts| - 1].Produce? && s.p.PIdle? ==> s.write < INT_MAX)
  }

  /** Called within range, the monotone ring is the reference ring limited to its size. */
  lemma {:induction false} MonotoneIsGuarded(buf: seq<int>, acts: seq<Act>)
    requires 0 < |buf| && CallsInRange(buf, acts)
    ensures Run(Monotone, Initial(buf), acts) == Image(Monotone, Run(Guarded(|buf|), Initial(buf), acts))
    ensures Narrow(Monotone, Run(Guarded(|buf|), Initial(buf), acts))
    decreases |acts|
  {
    if acts != [] {
      var before := acts[..|acts| - 1];
      MonotoneIsGuarded(buf, before);
      RefReachable(buf, |buf|, before);
      StepImage(Monotone, Run(Guarded(|buf|), Initial(buf), before), acts[|acts| - 1]);
    }
  }

  // ----- linearizability -----

  /** The entries of a wrapped ring, from its read index around to its write index. */
  function WrappedContents(s: Ring): seq<int>
    requires |s.buf| > 0 && 0 <= s.read < |s.buf| && 0 <= s.write < |s.buf|
  {
    var n := Between(s.read, s.write, |s.buf|);
    seq(n, i requires 0 <= i < n => Cell(s, i))
  }

  /** The number of entries between two wrapped indices. */
  function Between(read: int, write: int, size: nat): int {
    if read <= write then write - read else write - read + size
  }

  lemma BetweenSlots(read: nat, n: nat, size: nat)
    requires n < size
    ensures Between(read % size, (read + n) % size, size) == n
  {
    var r := read % size;
    RemainderOfSum(read, n, size);
    assert (read + n) % size == if r + n < size then r + n else r + n - size by {
      if r + n < size {
        RemainderIs(r + n, size, 0, r + n);
      } else {
        RemainderIs(r + n, size, 1, r + n - size);
      }
    }
  }

  lemma ImageContents(g: Ring)
    requires |g.buf| > 0 && RefInv(g, |g.buf| - 1)
    ensures WrappedContents(Image(Wrapped, g)) == Contents(g)
  {
    var s, size := Image(Wrapped, g), |g.buf|;
    var n := g.write - g.read;
    BetweenSlots(g.read, n, size);
    forall i | 0 <= i < n
      ensures Cell(s, i) == Cell(g, i)
    {
      RemainderOfSum(g.read, i, size);
    }
  }

  lemma RemainderOfSum(a: nat, b: nat, n: nat)
    requires n > 0
    ensures (a % n + b) % n == (a + b) % n
  {
    var q := (a % n + b) / n;
    assert n * (a / n + q) == n * (a / n) + n * q;
    RemainderIs(a + b, n, a / n + q, (a % n + b) % n);
  }

  /** The state stays in the buffer, and its entries are the value of a bounded FIFO queue after an
      accepted history. */
  predicate WrappedExplained(s: Ring)
    requires |s.buf| > 0
  {
    && !s.fault && 0 <= s.read < |s.buf| && 0 <= s.write < |s.buf|
    && Accepted(Bounded(|s.buf| - 1), s.hist)
    && QueueOf(Bounded(|s.buf| - 1), s.hist) == WrappedContents(s)
  }

  lemma ImageExplained(g: Ring)
    requires |g.buf| > 0 && RefInv(g, |g.buf| - 1) && RefHistory(g, |g.buf| - 1)
    ensures WrappedExplained(Image(Wrapped, g))
  {
    ImageContents(g);
  }

  lemma WrappedRunExplained(buf: seq<int>, acts: seq<Act>)
    requires 0 < |buf| <= INT_MAX + 1
    ensures WrappedExplained(Run(Wrapped, Initial(buf), acts))
  {
    var g := Run(Guarded(|buf| - 1), Initial(buf), acts);
    assert WrappedExplained(Image(Wrapped, g)) by {
      RefRun(buf, |buf| - 1, acts);
      ImageExplained(g);
    }
    WrappedIsGuarded(buf, acts);
  }

  /** Every interleaving of one producer and one consumer on the wrapped ring is linearizable to a
      FIFO queue that holds one entry less than the ring's size, and never leaves the buffer. */
  lemma WrappedLinearizable(buf: seq<int>, acts: seq<Act>)
    requires 0 < |buf| <= INT_MAX
    ensures WrappedExplained(Run(Wrapped, Initial(buf), acts))
    ensures Linearizable(Bounded(|buf| - 1), Visible(Run(Wrapped, Initial(buf), acts).hist))
  {
    WrappedRunExplained(buf, acts);
    AcceptedIsLinearizable(Bounded(|buf| - 1), Run(Wrapped, Initial(buf), acts).hist);
  }

  /** The tests of the reference ring compare snapshots, yet answer for the moment of their second load. */
  lemma TestsAreExact(g: Ring, limit: nat, v: int)
    requires RefInv(g, limit)
    ensures g.p.PLoaded? ==> (StepProducer(Guarded(limit), g, v).p == PDone(Full) <==> |Contents(g)| == limit)
    ensures g.c.CLoaded? ==> (StepConsumer(Guarded(limit), g).c == CDone(Empty) <==> Contents(g) == [])
  {
  }

  /** Snapshots notwithstanding, the test of the wrapped `try_push` fails exactly if the queue is
      full at its load of `read`, and that of `try_pop` exactly if it is empty at its load of `write`. */
  lemma WrappedTestsAreExact(buf: seq<int>, acts: seq<Act>, v: int)
    requires 0 < |buf| <= INT_MAX
    ensures var s := Run(Wrapped, Initial(buf), acts);
      && 0 <= s.read < |buf| && 0 <= s.write < |buf|
      && (s.p.PLoaded? ==> (StepProducer(Wrapped, s, v).p == PDone(Full) <==> |WrappedContents(s)| == |buf| - 1))
      && (s.c.CLoaded? ==> (StepConsumer(Wrapped, s).c == CDone(Empty) <==> WrappedContents(s) == []))
  {
    WrappedIsGuarded(buf, acts);
    RefReachable(buf, |buf| - 1, acts);
    WrappedStepTests(Run(Guarded(|buf| - 1), Initial(buf), acts), v);
  }

  lemma WrappedStepTests(g: Ring, v: int)
    requires 0 < |g.buf| <= INT_MAX && RefInv(g, |g.buf| - 1)
    ensures var s := Image(Wrapped, g);
      && 0 <= s.read < |g.buf| && 0 <= s.write < |g.buf|
      && (s.p.PLoaded? ==> (StepProducer(Wrapped, s, v).p == PDone(Full) <==> |WrappedContents(s)| == |g.buf| - 1))
      && (s.c.CLoaded? ==> (StepConsumer(Wrapped, s).c == CDone(Empty) <==> WrappedContents(s) == []))
  {
    ImageContents(g);
    TestsAreExact(g, |g.buf| - 1, v);
    ProducerStepImage(Wrapped, g, v);
    ConsumerStepImage(Wrapped, g);
  }

  /** The monotone ring, called within range, is linearizable to a FIFO queue of its full size. */
  lemma MonotoneLinearizable(buf: seq<int>, acts: seq<Act>)
    requires 0 < |buf| && CallsInRange(buf, acts)
    ensures var s := Run(Monotone, Initial(buf), acts);
      && !s.fault && 0 <= s.read <= s.write <= s.read + |buf|
      && Accepted(Bounded(|buf|), s.hist)
      && QueueOf(Bounded(|buf|), s.hist) == Contents(s)
      && Linearizable(Bounded(|buf|), Visible(s.hist))
  {
    MonotoneIsGuarded(buf, acts);
    RefRun(buf, |buf|, acts);
    var g := Run(Guarded(|buf|), Initial(buf), acts);
    assert forall i :: 0 <= i < |Contents(g)| ==> Cell(Image(Monotone, g), i) == Cell(g, i);
    AcceptedIsLinearizable(Bounded(|buf|), g.hist);
  }

  // ----- spinning -----

  /** `push` spins: each call of the producer offers the first value of `input` not accepted yet. */
  predicate Spins(buf: seq<int>, acts: seq<Act>, input: seq<int>)
    requires |buf| > 0
    decreases |acts|
  {
    acts == [] ||
    var before := acts[..|acts| - 1];
    var s := Run(Monotone, Initial(buf), before);
    && Spins(buf, before, input)
    && (acts[|acts| - 1].Produce? && s.p.PIdle? ==>
          |Puts(s.hist)| < |input| && acts[|acts| - 1].v == input[|Puts(s.hist)|])
  }

  predicate OffersNext(s: Ring, input: seq<int>) {
    && Values(Puts(s.hist)) <= input
    && (s.p.PCalled? || s.p.PLoaded? || s.p.PRoom? || s.p.PStored? ==>
          |Puts(s.hist)| < |input| && s.p.v == input[|Puts(s.hist)|])
  }

  /** Only the store of `write` makes a put effective. */
  lemma StepPuts(k: Kind, s: Ring, a: Act)
    requires |s.buf| > 0
    ensures Puts(Step(k, s, a).hist) ==
      Puts(s.hist) + if a.Produce? && s.p.PStored? then [(PRODUCER, s.p.v)] else []
  {
    match a {
      case Produce(v) => ProducerPuts(k, s, v);
      case Consume => ConsumerPuts(k, s);
    }
  }

  lemma PublishPuts(k: Kind, s: Ring, v: int)
    requires |s.buf| > 0 && s.p.PStored?
    ensures Puts(StepProducer(k, s, v).hist) == Puts(s.hist) + [(PRODUCER, s.p.v)]
  {
    ExtendPuts(s.hist, Lin(PRODUCER, Put(s.p.v), Ok));
  }

  lemma ProducerPuts(k: Kind, s: Ring, v: int)
    requires |s.buf| > 0
    ensures Puts(StepProducer(k, s, v).hist) == Puts(s.hist) + if s.p.PStored? then [(PRODUCER, s.p.v)] else []
  {
    match s.p {
      case PIdle => ExtendPuts(s.hist, Call(PRODUCER, Put(v)));
      case PLoaded(w, _, _) => ExtendPuts(s.hist, Lin(PRODUCER, Put(w), Full));
      case PStored(_, _, _) => PublishPuts(k, s, v);
      case PDone(res) => ExtendPuts(s.hist, Ret(PRODUCER, res));
      case _ =>
    }
  }

  lemma ConsumerPuts(k: Kind, s: Ring)
    requires |s.buf| > 0
    ensures Puts(StepConsumer(k, s).hist) == Puts(s.hist)
  {
    match s.c {
      case CIdle => ExtendPuts(s.hist, Call(CONSUMER, Take));
      case CLoaded(_) => ExtendPuts(s.hist, Lin(CONSUMER, Take, Empty));
      case CRead(_, x) => ExtendPuts(s.hist, Lin(CONSUMER, Take, Got(x)));
      case CDone(res) => ExtendPuts(s.hist, Ret(CONSUMER, res));
      case _ =>
    }
  }

  lemma StepOffersNext(s: Ring, a: Act, input: seq<int>)
    requires |s.buf| > 0 && OffersNext(s, input)
    requires a.Produce? && s.p.PIdle? ==> |Puts(s.hist)| < |input| && a.v == input[|Puts(s.hist)|]
    ensures OffersNext(Step(Monotone, s, a), input)
  {
    StepPuts(Monotone, s, a);
    var ps := Puts(s.hist);
    if a.Produce? && s.p.PStored? {
      assert Values(ps + [(PRODUCER, s.p.v)]) == Values(ps) + [s.p.v];
    } else {
      assert ps + [] == ps;
    }
  }

  lemma {:induction false} SpinsOfferNext(buf: seq<int>, acts: seq<Act>, input: seq<int>)
    requires 0 < |buf| && Spins(buf, acts, input)
    ensures OffersNext(Run(Monotone, Initial(buf), acts), input)
    decreases |acts|
  {
    if acts != [] {
      var before := acts[..|acts| - 1];
      SpinsOfferNext(buf, before, input);
      StepOffersNext(Run(Monotone, Initial(buf), before), acts[|acts| - 1], input);
    }
  }

  /** A spinning producer of `input` and a consumer: at every moment what was popped is a prefix of
      what was pushed, which is a prefix of `input`, at most the size ahead; once as many values were
      popped as the input has, they are the input. */
  lemma SpinningDelivers(buf: seq<int>, acts: seq<Act>, input: seq<int>)
    requires 0 < |buf| && CallsInRange(buf, acts) && Spins(buf, acts, input)
    ensures var h := Run(Monotone, Initial(buf), acts).hist;
      && Takes(h) <= Values(Puts(h)) <= input
      && |Puts(h)| - |Takes(h)| <= |buf|
      && (|Takes(h)| == |input| ==> Takes(h) == input)
  {
    MonotoneLinearizable(buf, acts);
    SpinsOfferNext(buf, acts, input);
    TakesArePrefixOfPuts(Bounded(|buf|), Run(Monotone, Initial(buf), acts).hist);
  }

  /** The two spins are never both stuck: between a push refused and a pop refused, whichever comes
      first, some push or pop succeeds. */
  lemma SpinsNeverBothStuck(buf: seq<int>, acts: seq<Act>, i: nat, j: nat) returns (n: nat)
    requires 0 < |buf| && CallsInRange(buf, acts)
    requires var h := Run(Monotone, Initial(buf), acts).hist;
      i < j < |h| && Stalls(h[i]) && Stalls(h[j]) && h[i].res != h[j].res
    ensures var h := Run(Monotone, Initial(buf), acts).hist; i < n < j < |h| && Succeeds(h[n])
  {
    MonotoneLinearizable(buf, acts);
    n := StallsAreSeparated(|buf|, Run(Monotone, Initial(buf), acts).hist, i, j);
  }

  /** The number of its own steps after which a side on its own has succeeded. */
  function ConsumerDistance(c: Consumer): nat {
    match c
    case CDone(_) => 6
    case CIdle => 5
    case CCalled => 4
    case CLoaded(_) => 3
    case CSome(_) => 2
    case CRead(_, _) => 1
  }

  function ProducerDistance(p: Producer): nat {
    match p
    case PDone(_) => 6
    case PIdle => 5
    case PCalled(_) => 4
    case PLoaded(_, _, _) => 3
    case PRoom(_, _, _) => 2
    case PStored(_, _, _) => 1
  }

  function Alone(k: Kind, s: Ring, a: Act, n: nat): (s': Ring)
    requires |s.buf| > 0
    ensures |s'.buf| == |s.buf|
    decreases n
  {
    if n == 0 then s else Alone(k, Step(k, s, a), a, n - 1)
  }

  /** With data in the ring every step brings the consumer closer to a pop. */
  lemma ConsumerCloser(g: Ring, limit: nat)
    requires RefInv(g, limit) && Contents(g) != [] && !g.c.CRead?
    ensures ConsumerDistance(StepConsumer(Guarded(limit), g).c) + 1 == ConsumerDistance(g.c)
  {
  }

  /** With room in the ring every step brings the producer closer to a push. */
  lemma ProducerCloser(g: Ring, limit: nat, v: int)
    requires RefInv(g, limit) && |Contents(g)| < limit && !g.p.PStored?
    ensures ProducerDistance(StepProducer(Guarded(limit), g, v).p) + 1 == ProducerDistance(g.p)
  {
  }

  /** With data in the ring, a consumer left alone pops the oldest entry within six steps. */
  lemma {:induction false} ConsumerSucceedsAlone(g: Ring, limit: nat)
    requires RefInv(g, limit) && Contents(g) != []
    ensures var g' := Alone(Guarded(limit), g, Consume, ConsumerDistance(g.c));
      g'.c == CDone(Got(Contents(g)[0])) && Contents(g') == Contents(g)[1..]
    decreases ConsumerDistance(g.c)
  {
    ConsumerInv(g, limit);
    var g' := StepConsumer(Guarded(limit), g);
    if g.c.CRead? {
      assert Alone(Guarded(limit), g', Consume, 0) == g';
    } else {
      ConsumerCloser(g, limit);
      ConsumerSucceedsAlone(g', limit);
    }
  }

  /** With room in the ring, a producer left alone pushes its value within six steps. */
  lemma {:induction false} ProducerSucceedsAlone(g: Ring, limit: nat, v: int)
    requires RefInv(g, limit) && |Contents(g)| < limit
    ensures var g' := Alone(Guarded(limit), g, Produce(v), ProducerDistance(g.p));
      && g'.p == PDone(Ok)
      && Contents(g') == Contents(g) + [if g.p.PIdle? || g.p.PDone? then v else g.p.v]
    decreases ProducerDistance(g.p)
  {
    ProducerInv(g, limit, v);
    ProducerContents(g, limit, v);
    var g' := StepProducer(Guarded(limit), g, v);
    if g.p.PStored? {
      assert Alone(Guarded(limit), g', Produce(v), 0) == g';
    } else {
      ProducerCloser(g, limit, v);
      ProducerSucceedsAlone(g', limit, v);
    }
  }

  /** A consumer alone does to a ring what it does to the reference ring. */
  lemma {:induction false} ConsumerAloneImage(k: Kind, g: Ring, n: nat)
    requires 0 < |g.buf| && 0 <= Limit(k, |g.buf|) && RefInv(g, Limit(k, |g.buf|)) && Narrow(k, g)
    ensures Alone(k, Image(k, g), Consume, n) == Image(k, Alone(Guarded(Limit(k, |g.buf|)), g, Consume, n))
    decreases n
  {
    if n > 0 {
      ConsumerStepImage(k, g);
      ConsumerInv(g, Limit(k, |g.buf|));
      ConsumerAloneImage(k, StepConsumer(Guarded(Limit(k, |g.buf|)), g), n - 1);
    }
  }

  /** And so does a producer, as far as its next success. */
  lemma {:induction false} ProducerAloneImage(k: Kind, g: Ring, v: int, n: nat)
    requires 0 < |g.buf| && 0 <= Limit(k, |g.buf|) && RefInv(g, Limit(k, |g.buf|)) && Narrow(k, g)
    requires k.Monotone? ==> g.write < INT_MAX
    requires n <= ProducerDistance(g.p)
    ensures Alone(k, Image(k, g), Produce(v), n) == Image(k, Alone(Guarded(Limit(k, |g.buf|)), g, Produce(v), n))
    decreases n
  {
    if n > 0 {
      var g' := StepProducer(Guarded(Limit(k, |g.buf|)), g, v);
      ProducerStepImage(k, g, v);
      ProducerInv(g, Limit(k, |g.buf|), v);
      if n > 1 {
        ProducerAloneImage(k, g', v, n - 1);
      }
    }
  }

  /** Of the two sides of a ring with at least one usable slot, one would succeed alone. */
  lemma OneSideSucceeds(k: Kind, g: Ring, v: int)
    requires 0 < |g.buf| && 0 < Limit(k, |g.buf|) && RefInv(g, Limit(k, |g.buf|)) && Narrow(k, g)
    requires k.Monotone? ==> g.write < INT_MAX
    ensures var s := Image(k, g);
      || Alone(k, s, Produce(v), ProducerDistance(s.p)).p == PDone(Ok)
      || (Contents(g) != [] && Alone(k, s, Consume, ConsumerDistance(s.c)).c == CDone(Got(Contents(g)[0])))
  {
    var limit := Limit(k, |g.buf|);
    if Contents(g) == [] {
      ProducerSucceedsAlone(g, limit, v);
      ProducerAloneImage(k, g, v, ProducerDistance(g.p));
    } else {
      ConsumerSucceedsAlone(g, limit);
      ConsumerAloneImage(k, g, ConsumerDistance(g.c));
    }
  }

  /** The producer alone would push, or the consumer alone would pop the oldest entry. */
  predicate WrappedSideSucceeds(s: Ring, v: int)
    requires |s.buf| > 0 && 0 <= s.read < |s.buf| && 0 <= s.write < |s.buf|
  {
    || Alone(Wrapped, s, Produce(v), ProducerDistance(s.p)).p == PDone(Ok)
    || (WrappedContents(s) != [] &&
        Alone(Wrapped, s, Consume, ConsumerDistance(s.c)).c == CDone(Got(WrappedContents(s)[0])))
  }

  lemma ImageSideSucceeds(s: Ring, g: Ring, v: int)
    requires 2 <= |g.buf| <= INT_MAX && RefInv(g, |g.buf| - 1) && s == Image(Wrapped, g)
    requires WrappedExplained(s)
    ensures WrappedSideSucceeds(s, v)
  {
    OneSideSucceeds(Wrapped, g, v);
    ImageContents(g);
  }

  /** In every reachable state of the wrapped ring the producer alone or the consumer alone would
      succeed within six of its steps, the consumer with the oldest entry. */
  lemma WrappedOneSideSucceeds(buf: seq<int>, acts: seq<Act>, v: int)
    requires 2 <= |buf| <= INT_MAX
    ensures WrappedExplained(Run(Wrapped, Initial(buf), acts))
    ensures WrappedSideSucceeds(Run(Wrapped, Initial(buf), acts), v)
  {
    var s, g := Run(Wrapped, Initial(buf), acts), Run(Guarded(|buf| - 1), Initial(buf), acts);
    assert WrappedExplained(s) by {
      WrappedRunExplained(buf, acts);
    }
    assert WrappedSideSucceeds(s, v) by {
      WrappedIsGuarded(buf, acts);
      RefReachable(buf, |buf| - 1, acts);
      ImageSideSucceeds(s, g, v);
    }
  }

  /** So it is on the monotone ring, as long as the next call is within range. */
  lemma MonotoneOneSideSucceeds(buf: seq<int>, acts: seq<Act>, v: int)
    requires 0 < |buf| && CallsInRange(buf, acts) && Run(Monotone, Initial(buf), acts).write < INT_MAX
    ensures var s := Run(Monotone, Initial(buf), acts);
      || Alone(Monotone, s, Produce(v), ProducerDistance(s.p)).p == PDone(Ok)
      || (Contents(s) != [] &&
          Alone(Monotone, s, Consume, ConsumerDistance(s.c)).c == CDone(Got(Contents(s)[0])))
  {
    var g := Run(Guarded(|buf|), Initial(buf), acts);
    MonotoneIsGuarded(buf, acts);
    RefReachable(buf, |buf|, acts);
    assert forall i :: 0 <= i < |Contents(g)| ==> Cell(Image(Monotone, g), i) == Cell(g, i);
    OneSideSucceeds(Monotone, g, v);
  }

  // ----- narrowing -----

  /** One whole `try_push`, run without interruption. */
  function PushAlone(k: Kind, s: Ring, v: int): (s': Ring)
    requires |s.buf| > 0
    ensures |s'.buf| == |s.buf|
  {
    var tested := StepProducer(k, StepProducer(k, StepProducer(k, s, v), v), v);
    if tested.p.PDone? then StepProducer(k, tested, v)
    else StepProducer(k, StepProducer(k, StepProducer(k, tested, v), v), v)
  }

  /** One whole `try_pop`, run without interruption. */
  function PopAlone(k: Kind, s: Ring): (s': Ring)
    requires |s.buf| > 0
    ensures |s'.buf| == |s.buf|
  {
    var tested := StepConsumer(k, StepConsumer(k, StepConsumer(k, s)));
    if tested.c.CDone? then StepConsumer(k, tested)
    else StepConsumer(k, StepConsumer(k, StepConsumer(k, tested)))
  }

  /** What a whole push does to memory. */
  function Pushed(k: Kind, s: Ring, v: int): Ring
    requires |s.buf| > 0
  {
    var i, next := Slot(k, |s.buf|, s.write), Increment(k, |s.buf|, s.write);
    if Room(k, |s.buf|, s.write, next, s.read) && 0 <= i < |s.buf| then s.(buf := s.buf[i := v], write := next) else s
  }

  lemma PushAloneIs(k: Kind, s: Ring, v: int)
    requires |s.buf| > 0 && s.p.PIdle? && 0 <= Slot(k, |s.buf|, s.write) < |s.buf|
    ensures PushAlone(k, s, v).(hist := []) == Pushed(k, s, v).(hist := [])
  {
  }

  /** What a whole pop does to memory. */
  function Popped(k: Kind, s: Ring): Ring
    requires |s.buf| > 0
  {
    if s.read != s.write then s.(read := Increment(k, |s.buf|, s.read)) else s
  }

  lemma PopAloneIs(k: Kind, s: Ring)
    requires |s.buf| > 0 && s.c.CIdle? && 0 <= Slot(k, |s.buf|, s.read) < |s.buf|
    ensures PopAlone(k, s).(hist := []) == Popped(k, s).(hist := [])
  {
  }

  lemma SlotInRing(k: Kind, size: nat, n: nat)
    requires if k.Wrapped? then n < size else 0 < size
    ensures 0 <= Slot(k, size, n) < size
  {
  }

  lemma RunExtend(k: Kind, buf: seq<int>, acts: seq<Act>, a: Act)
    requires |buf| > 0
    ensures Run(k, Initial(buf), acts + [a]) == Step(k, Run(k, Initial(buf), acts), a)
    ensures var s := Run(Monotone, Initial(buf), acts);
      CallsInRange(buf, acts + [a]) <==> CallsInRange(buf, acts) && (a.Produce? && s.p.PIdle? ==> s.write < INT_MAX)
  {
    assert (acts + [a])[..|acts|] == acts;
  }

  function Thrice(acts: seq<Act>, a: Act): seq<Act> {
    acts + [a] + [a] + [a]
  }

  lemma RunThrice(k: Kind, buf: seq<int>, acts: seq<Act>, a: Act)
    requires |buf| > 0
    ensures var s := Run(k, Initial(buf), acts);
      Run(k, Initial(buf), Thrice(acts, a)) == Step(k, Step(k, Step(k, s, a), a), a)
  {
    RunExtend(k, buf, acts, a);
    RunExtend(k, buf, acts + [a], a);
    RunExtend(k, buf, acts + [a] + [a], a);
  }

  /** Three steps of one side start at most one call. */
  lemma RangeThrice(buf: seq<int>, acts: seq<Act>, a: Act)
    requires |buf| > 0 && CallsInRange(buf, acts)
    requires a.Produce? ==>
      var s := Run(Monotone, Initial(buf), acts);
      !s.p.PDone? && !s.p.PStored? && (s.p.PIdle? ==> s.write < INT_MAX)
    ensures CallsInRange(buf, Thrice(acts, a)) || (a.Produce? && Run(Monotone, Initial(buf), acts).p.PLoaded?)
  {
    RunExtend(Monotone, buf, acts, a);
    RunExtend(Monotone, buf, acts + [a], a);
    RunExtend(Monotone, buf, acts + [a] + [a], a);
  }

  /** A whole push is a run of four or six steps, and one call. */
  lemma PushAloneIsRun(k: Kind, buf: seq<int>, acts: seq<Act>, v: int) returns (acts': seq<Act>)
    requires |buf| > 0 && Run(k, Initial(buf), acts).p.PIdle?
    ensures Run(k, Initial(buf), acts') == PushAlone(k, Run(k, Initial(buf), acts), v)
    ensures k.Monotone? && CallsInRange(buf, acts) && Run(k, Initial(buf), acts).write < INT_MAX ==>
      CallsInRange(buf, acts')
  {
    var a := Produce(v);
    var three := Thrice(acts, a);
    RunThrice(k, buf, acts, a);
    if k.Monotone? && CallsInRange(buf, acts) && Run(k, Initial(buf), acts).write < INT_MAX {
      RangeThrice(buf, acts, a);
    }
    if Run(k, Initial(buf), three).p.PDone? {
      acts' := three + [a];
      RunExtend(k, buf, three, a);
    } else {
      acts' := Thrice(three, a);
      RunThrice(k, buf, three, a);
      if k.Monotone? && CallsInRange(buf, three) {
        RangeThrice(buf, three, a);
      }
    }
  }

  lemma PopAloneIsRun(k: Kind, buf: seq<int>, acts: seq<Act>) returns (acts': seq<Act>)
    requires |buf| > 0 && Run(k, Initial(buf), acts).c.CIdle?
    ensures Run(k, Initial(buf), acts') == PopAlone(k, Run(k, Initial(buf), acts))
    ensures CallsInRange(buf, acts) ==> CallsInRange(buf, acts')
  {
    var three := Thrice(acts, Consume);
    RunThrice(k, buf, acts, Consume);
    if CallsInRange(buf, acts) {
      RangeThrice(buf, acts, Consume);
    }
    if Run(k, Initial(buf), three).c.CDone? {
      acts' := three + [Consume];
      RunExtend(k, buf, three, Consume);
    } else {
      acts' := Thrice(three, Consume);
      RunThrice(k, buf, three, Consume);
      if CallsInRange(buf, three) {
        RangeThrice(buf, three, Consume);
      }
    }
  }

  predicate Resting(s: Ring, n: nat) {
    s.p == PIdle && s.c == CIdle && s.write == n && s.read == n && !s.fault
  }

  /** The ring can hold an entry at index `n` and go on to the next. */
  predicate HasNext(k: Kind, size: nat, n: nat) {
    n < INT_MAX && (if k.Wrapped? then n + 1 < size else k.Monotone? && 0 < size)
  }

  lemma NextIndex(k: Kind, size: nat, n: nat)
    requires HasNext(k, size, n)
    ensures Increment(k, size, n) == n + 1
  {
    SuccessorExact(n);
  }

  lemma PushMoves(k: Kind, s: Ring, n: nat)
    requires HasNext(k, |s.buf|, n) && Resting(s, n)
    ensures var s' := PushAlone(k, s, 0);
      s'.p == PIdle && s'.c == CIdle && s'.write == n + 1 && s'.read == n && !s'.fault
  {
    SlotInRing(k, |s.buf|, n);
    PushAloneIs(k, s, 0);
    NextIndex(k, |s.buf|, n);
  }

  lemma PopMoves(k: Kind, s: Ring, n: nat)
    requires HasNext(k, |s.buf|, n)
    requires s.p == PIdle && s.c == CIdle && s.write == n + 1 && s.read == n && !s.fault
    ensures Resting(PopAlone(k, s), n + 1)
  {
    SlotInRing(k, |s.buf|, n);
    PopAloneIs(k, s);
    NextIndex(k, |s.buf|, n);
  }

  /** A push and a pop move a resting ring one index further. */
  lemma OneFurther(k: Kind, buf: seq<int>, acts: seq<Act>, n: nat) returns (acts': seq<Act>)
    requires |buf| > 0 && HasNext(k, |buf|, n) && Resting(Run(k, Initial(buf), acts), n)
    ensures Resting(Run(k, Initial(buf), acts'), n + 1)
    ensures k.Monotone? && CallsInRange(buf, acts) ==> CallsInRange(buf, acts')
  {
    PushMoves(k, Run(k, Initial(buf), acts), n);
    var pushed := PushAloneIsRun(k, buf, acts, 0);
    PopMoves(k, Run(k, Initial(buf), pushed), n);
    acts' := PopAloneIsRun(k, buf, pushed);
  }

  /** The index INT_MAX is reached, by a wrapped ring large enough and by every monotone ring. */
  lemma {:induction false} ReachIndex(k: Kind, buf: seq<int>, n: nat) returns (acts: seq<Act>)
    requires n <= INT_MAX && (n > 0 ==> HasNext(k, |buf|, n - 1)) && |buf| > 0
    ensures Resting(Run(k, Initial(buf), acts), n)
    ensures k.Monotone? ==> CallsInRange(buf, acts)
  {
    if n == 0 {
      acts := [];
    } else {
      acts := ReachIndex(k, buf, n - 1);
      acts := OneFurther(k, buf, acts, n - 1);
    }
  }

  /** Both increments of the ring in state `s` survive the narrowing to `int`. */
  predicate IncrementsExact(s: Ring) {
    Successor(s.write) == s.write + 1 && Successor(s.read) == s.read + 1
  }

  /** On the wrapped ring the narrowing is exact for ever exactly if the size fits an `int`. */
  lemma WrappedNarrowing(buf: seq<int>)
    requires |buf| > 0
    ensures (forall acts :: IncrementsExact(Run(Wrapped, Initial(buf), acts))) <==> |buf| <= INT_MAX
  {
    if |buf| <= INT_MAX {
      forall acts
        ensures IncrementsExact(Run(Wrapped, Initial(buf), acts))
      {
        WrappedLinearizable(buf, acts);
        var s := Run(Wrapped, Initial(buf), acts);
        SuccessorExact(s.write);
        SuccessorExact(s.read);
      }
    } else {
      var acts := ReachIndex(Wrapped, buf, INT_MAX);
      SuccessorExact(INT_MAX);
      assert !IncrementsExact(Run(Wrapped, Initial(buf), acts));
    }
  }

  predicate InRing(s: Ring) {
    !s.fault && 0 <= s.read < |s.buf| && 0 <= s.write < |s.buf|
  }

  /** With the narrowing wrapping around, the indices stay in the ring for ever exactly up to size 2^31,
      where the remainder undoes the one overflow; beyond, a push publishes a negative index. */
  lemma WrappedStaysInRing(buf: seq<int>)
    requires |buf| > 0
    ensures (forall acts :: InRing(Run(Wrapped, Initial(buf), acts))) <==> |buf| <= INT_MAX + 1
  {
    if |buf| <= INT_MAX + 1 {
      forall acts
        ensures InRing(Run(Wrapped, Initial(buf), acts))
      {
        WrappedRunExplained(buf, acts);
      }
    } else {
      var acts := ReachIndex(Wrapped, buf, INT_MAX);
      PushOverflows(Wrapped, Run(Wrapped, Initial(buf), acts), 0);
      acts := PushAloneIsRun(Wrapped, buf, acts, 0);
      assert !InRing(Run(Wrapped, Initial(buf), acts));
    }
  }

  /** From the index INT_MAX the next push publishes a negative one. */
  lemma PushOverflows(k: Kind, s: Ring, v: int)
    requires Resting(s, INT_MAX) && (if k.Wrapped? then |s.buf| > INT_MAX + 1 else k.Monotone? && 0 < |s.buf|)
    ensures var s' := PushAlone(k, s, v); !s'.fault && s'.p == PIdle && s'.write == -INT_MAX - 1
  {
    SlotInRing(k, |s.buf|, INT_MAX);
    PushAloneIs(k, s, v);
    OverflowIndex(k, |s.buf|);
  }

  lemma OverflowIndex(k: Kind, size: nat)
    requires if k.Wrapped? then size > INT_MAX + 1 else k.Monotone? && 0 < size
    ensures Increment(k, size, INT_MAX) == -INT_MAX - 1
  {
    assert Successor(INT_MAX) == -INT_MAX - 1;
    if k.Wrapped? {
      RemainderIs(INT_MAX + 1, size, 0, INT_MAX + 1);
    }
  }

  /** On the monotone ring, called within range, every increment is exact: the consumer's, and that of a
      producer that has been called. */
  lemma MonotoneNarrowing(buf: seq<int>, acts: seq<Act>)
    requires 0 < |buf| && CallsInRange(buf, acts)
    ensures var s := Run(Monotone, Initial(buf), acts);
      && 0 <= s.read <= s.write <= INT_MAX
      && (s.c.CRead? ==> Successor(s.c.head) == s.c.head + 1)
      && (s.p.PCalled? ==> Successor(s.write) == s.write + 1)
  {
    MonotoneIsGuarded(buf, acts);
    RefReachable(buf, |buf|, acts);
    var s := Run(Monotone, Initial(buf), acts);
    SuccessorExact(s.write);
    if s.c.CRead? {
      SuccessorExact(s.c.head);
    }
  }

  /** With room, a whole push on the monotone ring publishes what `increment` returns. */
  lemma PushPublishes(s: Ring, v: int)
    requires |s.buf| > 0 && s.p.PIdle? && 0 <= s.write && s.write - s.read < |s.buf|
    ensures PushAlone(Monotone, s, v).write == Successor(s.write)
  {
    SlotInRing(Monotone, |s.buf|, s.write);
    PushAloneIs(Monotone, s, v);
  }

  /** With room, the next call moves `write` on by one exactly if it is made within range too; at the
      bound it publishes the least `int`. */
  lemma MonotoneNextCall(buf: seq<int>, acts: seq<Act>, v: int)
    requires 0 < |buf| && CallsInRange(buf, acts)
    requires var s := Run(Monotone, Initial(buf), acts); s.p.PIdle? && s.write - s.read < |buf|
    ensures var s := Run(Monotone, Initial(buf), acts);
      var s' := PushAlone(Monotone, s, v);
      && (s'.write == s.write + 1 <==> s.write < INT_MAX)
      && (s.write == INT_MAX ==> s'.write == -INT_MAX - 1)
  {
    MonotoneNarrowing(buf, acts);
    var s := Run(Monotone, Initial(buf), acts);
    SuccessorExact(s.write);
    PushPublishes(s, v);
  }

  /** Every monotone ring comes to that bound, by calls within range, and goes over it. */
  lemma MonotoneOverflows(buf: seq<int>, v: int) returns (acts: seq<Act>, over: seq<Act>)
    requires 0 < |buf|
    ensures CallsInRange(buf, acts) && Resting(Run(Monotone, Initial(buf), acts), INT_MAX)
    ensures Run(Monotone, Initial(buf), over) == PushAlone(Monotone, Run(Monotone, Initial(buf), acts), v)
    ensures Run(Monotone, Initial(buf), over).write < 0
  {
    acts := ReachIndex(Monotone, buf, INT_MAX);
    PushOverflows(Monotone, Run(Monotone, Initial(buf), acts), v);
    over := PushAloneIsRun(Monotone, buf, acts, v);
  }
}
