/** The acquire/release ring under the C++11 memory model (sections 1.10 and 29.3 of
    ISO/IEC 14882:2011).

    An execution is a trace of memory events. Each index is an atomic location whose stores carry the
    view of the storing thread; a load may read any store that is not older than the loading thread's
    view, so stale values are allowed. Buffer slots are ordinary memory: a read may take its value
    from any write that is not hidden by one that happens in between. Happens-before is the
    transitive closure of sequenced-before and synchronizes-with. */
module ReleaseAcquireRing {
  import opened Int32
  import opened Modulo

  datatype Side = Main | Producer | Consumer

  /** The newest store to each index that a thread knows of, as positions in the trace. */
  datatype View = View(write: nat, read: nat)

  /** `SlotWrite(k, v)` fills the slot of index `k`. `SlotRead(k, origin, v)` reads it,
      taking the value written at position `origin`, or memory never written if `origin` is negative. */
  datatype Event =
    | StoreWrite(t: Side, val: int, view: View)
    | StoreRead(t: Side, val: int, view: View)
    | LoadWrite(t: Side, from: nat, val: int)
    | LoadRead(t: Side, from: nat, val: int)
    | SlotWrite(k: int, v: int)
    | SlotRead(k: int, origin: int, v: int)

  function ThreadOf(e: Event): Side {
    match e
    case SlotWrite(_, _) => Producer
    case SlotRead(_, _, _) => Consumer
    case _ => e.t
  }

  // ----- happens-before -----

  /** Program order; what the constructing thread did precedes both threads it starts. */
  predicate SequencedBefore(tr: seq<Event>, i: nat, j: nat) {
    i < j < |tr| && (ThreadOf(tr[i]) == ThreadOf(tr[j]) || ThreadOf(tr[i]) == Main)
  }

  /** A release store synchronizes with the acquire load that reads it. */
  predicate SynchronizesWith(tr: seq<Event>, i: nat, j: nat) {
    && i < j < |tr|
    && ((tr[i].StoreWrite? && tr[j].LoadWrite? && tr[j].from == i)
        || (tr[i].StoreRead? && tr[j].LoadRead? && tr[j].from == i))
  }

  predicate Edge(tr: seq<Event>, i: nat, j: nat) {
    SequencedBefore(tr, i, j) || SynchronizesWith(tr, i, j)
  }

  ghost predicate HappensBefore(tr: seq<Event>, i: nat, j: nat)
    decreases j
  {
    i < j < |tr| && (Edge(tr, i, j) || exists m: nat :: i < m < j && HappensBefore(tr, i, m) && Edge(tr, m, j))
  }

  /** Three edges in a row: program order, synchronization, program order. */
  lemma ThroughSync(tr: seq<Event>, a: nat, b: nat, c: nat, d: nat)
    requires SequencedBefore(tr, a, b) && SynchronizesWith(tr, b, c) && SequencedBefore(tr, c, d)
    ensures HappensBefore(tr, a, d)
  {
    assert HappensBefore(tr, a, b);
    assert Edge(tr, b, c) && HappensBefore(tr, a, c);
    assert Edge(tr, c, d);
  }

  // ----- the threads -----

  datatype ProducerPc =
    | PIdle
    | PCalled(v: int)                                    // load write
    | PLoaded(v: int, tail: int, next: int)              // load read, acquire; test for room
    | PRoom(v: int, tail: int, next: int, seen: nat)     // store into the buffer
    | PStored(v: int, tail: int, next: int)              // store write, release
    | PDone(ok: bool)

  datatype ConsumerPc =
    | CIdle
    | CCalled                                            // load read
    | CLoaded(head: int)                                 // load write, acquire; test for data
    | CSome(head: int, seen: nat)                        // load from the buffer
    | CRead(head: int, x: int)                           // store read, release
    | CDone(ok: bool, x: int)

  /** Bookkeeping, which no step depends on: the positions of the stores of `write` and `read` by
      the value stored, of the slot writes and slot reads by index, and of the acquire load behind
      each of those. */
  datatype Book = Book(
    sw: seq<nat>, sr: seq<nat>,
    wr: seq<nat>, rd: seq<nat>,
    lr: seq<nat>, lw: seq<nat>)

  /** `fault` records an access outside the buffer. */
  datatype State = State(
    size: nat, tr: seq<Event>, pv: View, cv: View,
    p: ProducerPc, c: ConsumerPc, fault: bool, book: Book)

  /** The scheduler picks the side; memory picks the store a load reads, and for a slot never
      written, what is found there; `v` is the value to push when a call starts. */
  datatype Action = Action(side: Side, v: int, from: int, junk: int)

  /** Both indices are initialised before the threads start. */
  function Initial(size: nat): State {
    State(size, [StoreWrite(Main, 0, View(0, 1)), StoreRead(Main, 0, View(0, 1))],
          View(0, 1), View(0, 1), PIdle, CIdle, false, Book([0], [1], [], [], [], []))
  }

  function Max(a: nat, b: nat): nat {
    if a < b then b else a
  }

  function Join(a: View, b: View): View {
    View(Max(a.write, b.write), Max(a.read, b.read))
  }

  predicate CanLoadWrite(tr: seq<Event>, view: View, from: int) {
    view.write <= from < |tr| && tr[from].StoreWrite?
  }

  predicate CanLoadRead(tr: seq<Event>, view: View, from: int) {
    view.read <= from < |tr| && tr[from].StoreRead?
  }

  predicate SameSlotWrite(tr: seq<Event>, size: nat, i: nat, k: int)
    requires size > 0
  {
    i < |tr| && tr[i].SlotWrite? && Remainder(tr[i].k, size) == Remainder(k, size)
  }

  /** The slot read at position `n` of `tr` may take its value from `origin`: a write to that slot
      not overwritten by one in between, or nothing if no write to the slot happens before. */
  ghost predicate MayReadFrom(tr: seq<Event>, size: nat, n: nat, k: int, origin: int)
    requires size > 0
  {
    if origin < 0 then
      forall x: nat :: SameSlotWrite(tr, size, x, k) ==> !HappensBefore(tr, x, n)
    else
      && SameSlotWrite(tr, size, origin, k)
      && forall x: nat :: SameSlotWrite(tr, size, x, k) && HappensBefore(tr, origin, x) ==> !HappensBefore(tr, x, n)
  }

  function SlotValue(tr: seq<Event>, from: int, junk: int): int {
    if 0 <= from < |tr| && tr[from].SlotWrite? then tr[from].v else junk
  }

  // ----- the statements of try_push -----

  function AfterLoadWrite(view: View, e: Event, from: nat): View
    requires e.StoreWrite?
  {
    Join(view, e.view).(write := Max(from, Join(view, e.view).write))
  }

  function AfterLoadRead(view: View, e: Event, from: nat): View
    requires e.StoreRead?
  {
    Join(view, e.view).(read := Max(from, Join(view, e.view).read))
  }

  function LoadTail(s: State, from: int): State
    requires s.p.PCalled? && CanLoadWrite(s.tr, s.pv, from)
  {
    var e := s.tr[from];
    s.(tr := s.tr + [LoadWrite(Producer, from, e.val)], pv := AfterLoadWrite(s.pv, e, from),
       p := PLoaded(s.p.v, e.val, Successor(e.val)))
  }

  function TestRoom(s: State, from: int): State
    requires s.p.PLoaded? && CanLoadRead(s.tr, s.pv, from)
  {
    var e := s.tr[from];
    s.(tr := s.tr + [LoadRead(Producer, from, e.val)], pv := AfterLoadRead(s.pv, e, from),
       p := if s.p.tail - e.val <= s.size - 1 then PRoom(s.p.v, s.p.tail, s.p.next, |s.tr|) else PDone(false))
  }

  function FillSlot(s: State): State
    requires s.p.PRoom? && s.size > 0
  {
    if 0 <= Remainder(s.p.tail, s.size) < s.size then
      s.(tr := s.tr + [SlotWrite(s.p.tail, s.p.v)], p := PStored(s.p.v, s.p.tail, s.p.next),
         book := s.book.(wr := s.book.wr + [|s.tr|], lr := s.book.lr + [s.p.seen]))
    else s.(fault := true)
  }

  function StoreTail(s: State): State
    requires s.p.PStored?
  {
    var view := s.pv.(write := |s.tr|);
    s.(tr := s.tr + [StoreWrite(Producer, s.p.next, view)], pv := view, p := PDone(true),
       book := s.book.(sw := s.book.sw + [|s.tr|]))
  }

  // ----- the statements of try_pop -----

  function LoadHead(s: State, from: int): State
    requires s.c.CCalled? && CanLoadRead(s.tr, s.cv, from)
  {
    var e := s.tr[from];
    s.(tr := s.tr + [LoadRead(Consumer, from, e.val)], cv := AfterLoadRead(s.cv, e, from), c := CLoaded(e.val))
  }

  function TestData(s: State, from: int): State
    requires s.c.CLoaded? && CanLoadWrite(s.tr, s.cv, from)
  {
    var e := s.tr[from];
    s.(tr := s.tr + [LoadWrite(Consumer, from, e.val)], cv := AfterLoadWrite(s.cv, e, from),
       c := if s.c.head == e.val then CDone(false, 0) else CSome(s.c.head, |s.tr|))
  }

  function DrainSlot(s: State, origin: int, junk: int): State
    requires s.c.CSome? && s.size > 0
  {
    if 0 <= Remainder(s.c.head, s.size) < s.size then
      var x := SlotValue(s.tr, origin, junk);
      s.(tr := s.tr + [SlotRead(s.c.head, origin, x)], c := CRead(s.c.head, x),
         book := s.book.(rd := s.book.rd + [|s.tr|], lw := s.book.lw + [s.c.seen]))
    else s.(fault := true)
  }

  function StoreHead(s: State): State
    requires s.c.CRead?
  {
    var view := s.cv.(read := |s.tr|);
    s.(tr := s.tr + [StoreRead(Consumer, Successor(s.c.head), view)], cv := view, c := CDone(true, s.c.x),
       book := s.book.(sr := s.book.sr + [|s.tr|]))
  }

  // ----- runs -----

  /** The last write index that a producer with this view has stored is below INT_MAX. */
  predicate CallInRange(tr: seq<Event>, view: View) {
    view.write < |tr| && tr[view.write].StoreWrite? && tr[view.write].val < INT_MAX
  }

  /** `try_push` is called only within range. */
  predicate ProducerCan(s: State, a: Action) {
    match s.p
    case PIdle => CallInRange(s.tr, s.pv)
    case PCalled(_) => CanLoadWrite(s.tr, s.pv, a.from)
    case PLoaded(_, _, _) => CanLoadRead(s.tr, s.pv, a.from)
    case _ => true
  }

  ghost predicate ConsumerCan(s: State, a: Action)
    requires s.size > 0
  {
    match s.c
    case CCalled => CanLoadRead(s.tr, s.cv, a.from)
    case CLoaded(_) => CanLoadWrite(s.tr, s.cv, a.from)
    case CSome(head, _) =>
      MayReadFrom(s.tr + [SlotRead(head, a.from, SlotValue(s.tr, a.from, a.junk))], s.size, |s.tr|, head, a.from)
    case _ => true
  }

  ghost predicate Enabled(s: State, a: Action) {
    && s.size > 0 && !s.fault
    && match a.side case Main => false case Producer => ProducerCan(s, a) case Consumer => ConsumerCan(s, a)
  }

  function StepProducer(s: State, a: Action): State
    requires s.size > 0 && ProducerCan(s, a)
  {
    match s.p
    case PIdle => s.(p := PCalled(a.v))
    case PCalled(_) => LoadTail(s, a.from)
    case PLoaded(_, _, _) => TestRoom(s, a.from)
    case PRoom(_, _, _, _) => FillSlot(s)
    case PStored(_, _, _) => StoreTail(s)
    case PDone(_) => s.(p := PIdle)
  }

  ghost function StepConsumer(s: State, a: Action): State
    requires s.size > 0 && ConsumerCan(s, a)
  {
    match s.c
    case CIdle => s.(c := CCalled)
    case CCalled => LoadHead(s, a.from)
    case CLoaded(_) => TestData(s, a.from)
    case CSome(_, _) => DrainSlot(s, a.from, a.junk)
    case CRead(_, _) => StoreHead(s)
    case CDone(_, _) => s.(c := CIdle)
  }

  ghost function Step(s: State, a: Action): State
    requires Enabled(s, a)
  {
    if a.side == Producer then StepProducer(s, a) else StepConsumer(s, a)
  }

  ghost predicate IsRun(ss: seq<State>, acts: seq<Action>, size: nat) {
    && size > 0
    && |ss| == |acts| + 1
    && ss[0] == Initial(size)
    && forall i {:trigger acts[i]} :: 0 <= i < |acts| ==> Enabled(ss[i], acts[i]) && ss[i + 1] == Step(ss[i], acts[i])
  }

  // ----- the invariant -----

  /** How many pushes and pops have been published. */
  function Pushes(b: Book): int { |b.sw| - 1 }
  function Pops(b: Book): int { |b.sr| - 1 }

  predicate IsStoreWrite(tr: seq<Event>, i: nat, val: nat) {
    i < |tr| && tr[i].StoreWrite? && tr[i].val == val && (val > 0 ==> tr[i].t == Producer)
  }

  predicate IsStoreRead(tr: seq<Event>, i: nat, val: nat) {
    i < |tr| && tr[i].StoreRead? && tr[i].val == val && (val > 0 ==> tr[i].t == Consumer)
  }

  /** A view names stores of the right locations. */
  predicate ViewInv(tr: seq<Event>, view: View) {
    && view.write < |tr| && tr[view.write].StoreWrite?
    && view.read < |tr| && tr[view.read].StoreRead?
  }

  /** Every store carries a view that names stores. */
  predicate StoreViews(tr: seq<Event>) {
    forall i {:trigger ViewInv(tr, tr[i].view)} ::
      0 <= i < |tr| && (tr[i].StoreWrite? || tr[i].StoreRead?) ==> ViewInv(tr, tr[i].view)
  }

  /** Positions in the order of the trace. */
  predicate Increasing(s: seq<nat>) {
    forall j, k :: 0 <= j < k < |s| ==> s[j] < s[k]
  }

  /** The stores of `write` are those in the book, numbered by their values, in order. */
  predicate WriteStores(tr: seq<Event>, b: Book) {
    && b.sw != [] && Increasing(b.sw)
    && (forall k :: 0 <= k < |b.sw| ==> IsStoreWrite(tr, b.sw[k], k))
    && (forall i :: 0 <= i < |tr| && tr[i].StoreWrite? ==> 0 <= tr[i].val < |b.sw| && b.sw[tr[i].val] == i)
  }

  /** The stores of `read`, likewise. */
  predicate ReadStores(tr: seq<Event>, b: Book) {
    && b.sr != [] && Increasing(b.sr)
    && (forall k :: 0 <= k < |b.sr| ==> IsStoreRead(tr, b.sr[k], k))
    && (forall i :: 0 <= i < |tr| && tr[i].StoreRead? ==> 0 <= tr[i].val < |b.sr| && b.sr[tr[i].val] == i)
  }

  /** The position `i` is a load of `read` by the producer that saw the pop of index `k - size`. */
  predicate SawRoom(tr: seq<Event>, b: Book, size: nat, i: nat, k: int) {
    && i < |tr| && tr[i].LoadRead? && tr[i].t == Producer
    && k - size + 1 <= tr[i].val < |b.sr| && 0 <= tr[i].val && tr[i].from == b.sr[tr[i].val] && tr[i].from < i
  }

  /** The position `i` is a load of `write` by the consumer that saw the push of index `k`. */
  predicate SawData(tr: seq<Event>, b: Book, i: nat, k: int) {
    && i < |tr| && tr[i].LoadWrite? && tr[i].t == Consumer
    && k + 1 <= tr[i].val < |b.sw| && 0 <= tr[i].val && tr[i].from == b.sw[tr[i].val] && tr[i].from < i
  }

  /** The slot write of index `k` comes after a load that saw room for it and before its publication. */
  predicate PushRecord(tr: seq<Event>, b: Book, size: nat, k: nat) {
    && k < |b.wr| == |b.lr|
    && b.wr[k] < |tr| && tr[b.wr[k]].SlotWrite? && tr[b.wr[k]].k == k
    && SawRoom(tr, b, size, b.lr[k], k) && b.lr[k] < b.wr[k]
    && (k < Pushes(b) ==> b.wr[k] < b.sw[k + 1])
  }

  /** The slot read of index `k` comes after a load that saw its push and before its publication. */
  predicate PopRecord(tr: seq<Event>, b: Book, k: nat) {
    && k < |b.rd| == |b.lw|
    && b.rd[k] < |tr| && tr[b.rd[k]].SlotRead? && tr[b.rd[k]].k == k
    && SawData(tr, b, b.lw[k], k) && b.lw[k] < b.rd[k]
    && (k < Pops(b) ==> b.rd[k] < b.sr[k + 1])
  }

  predicate PushRecords(tr: seq<Event>, b: Book, size: nat) {
    && Pushes(b) <= |b.wr| == |b.lr| <= Pushes(b) + 1 && Increasing(b.wr)
    && (forall k :: 0 <= k < |b.wr| ==> PushRecord(tr, b, size, k))
    && (forall i :: 0 <= i < |tr| && tr[i].SlotWrite? ==> 0 <= tr[i].k < |b.wr| && b.wr[tr[i].k] == i)
  }

  predicate PopRecords(tr: seq<Event>, b: Book) {
    && Pops(b) <= |b.rd| == |b.lw| <= Pops(b) + 1 && Increasing(b.rd)
    && (forall k :: 0 <= k < |b.rd| ==> PopRecord(tr, b, k))
    && (forall i :: 0 <= i < |tr| && tr[i].SlotRead? ==> 0 <= tr[i].k < |b.rd| && b.rd[tr[i].k] == i)
  }

  /** The slot read of index `k` took the value pushed at index `k`. */
  predicate ReadsOwn(tr: seq<Event>, b: Book, k: nat) {
    && k < |b.wr| && k < |b.rd|
    && b.rd[k] < |tr| && tr[b.rd[k]].SlotRead? && b.wr[k] < |tr| && tr[b.wr[k]].SlotWrite?
    && tr[b.rd[k]].origin == b.wr[k] && tr[b.rd[k]].v == tr[b.wr[k]].v
  }

  predicate AllReadOwn(tr: seq<Event>, b: Book) {
    forall k :: 0 <= k < |b.rd| ==> ReadsOwn(tr, b, k)
  }

  predicate TraceInv(tr: seq<Event>, b: Book, size: nat) {
    && size > 0
    && WriteStores(tr, b) && ReadStores(tr, b) && StoreViews(tr)
    && PushRecords(tr, b, size) && PopRecords(tr, b)
    && AllReadOwn(tr, b)
  }

  predicate ProducerInv(s: State) {
    var b := s.book;
    && b.sw != [] && ViewInv(s.tr, s.pv) && s.pv.write == b.sw[|b.sw| - 1]
    && Pushes(b) <= INT_MAX
    && (s.p.PCalled? || s.p.PLoaded? || s.p.PRoom? || s.p.PStored? ==> Pushes(b) < INT_MAX)
    && (s.p.PStored? <==> |b.wr| == Pushes(b) + 1)
    && (match s.p
        case PLoaded(_, tail, next) => tail == Pushes(b) && next == tail + 1
        case PRoom(_, tail, next, seen) => tail == Pushes(b) && next == tail + 1 && SawRoom(s.tr, b, s.size, seen, tail)
        case PStored(_, tail, next) => tail == Pushes(b) && next == tail + 1
        case _ => true)
  }

  /** The consumer never forgets a push it has seen: coherence keeps its loads of `write` from going
      back behind the values already popped. */
  predicate ConsumerInv(s: State) {
    var b := s.book;
    && b.sw != [] && b.sr != [] && ViewInv(s.tr, s.cv) && s.cv.read == b.sr[|b.sr| - 1]
    && Pops(b) <= Pushes(b) <= INT_MAX
    && (s.c.CRead? <==> |b.rd| == Pops(b) + 1)
    && b.sw[Pops(b)] <= s.cv.write
    && (match s.c
        case CLoaded(head) => head == Pops(b)
        case CSome(head, seen) =>
          head == Pops(b) < Pushes(b) && SawData(s.tr, b, seen, head) && b.sw[head + 1] <= s.cv.write
        case CRead(head, _) => head == Pops(b) < Pushes(b) && b.sw[head + 1] <= s.cv.write
        case _ => true)
  }

  predicate Inv(s: State) {
    !s.fault && TraceInv(s.tr, s.book, s.size) && ProducerInv(s) && ConsumerInv(s)
  }

  // ----- happens-before between slot accesses -----

  /** The push of an index happens before the pop of that index and of every later one. */
  lemma PushBeforePop(tr: seq<Event>, b: Book, size: nat, j: nat, k: nat)
    requires WriteStores(tr, b) && PushRecord(tr, b, size, j) && PopRecord(tr, b, k) && j <= k
    ensures HappensBefore(tr, b.wr[j], b.rd[k])
  {
    var m := tr[b.lw[k]].val;
    assert b.wr[j] < b.sw[j + 1] <= b.sw[m];
    assert IsStoreWrite(tr, b.sw[m], m);
    ThroughSync(tr, b.wr[j], b.sw[m], b.lw[k], b.rd[k]);
  }

  /** A pop happens before the push that reuses its slot a round later, and all after that. */
  lemma PopBeforePush(tr: seq<Event>, b: Book, size: nat, k: nat, j: nat)
    requires ReadStores(tr, b) && PopRecords(tr, b) && PushRecord(tr, b, size, j) && k + size <= j
    ensures k < Pops(b) && HappensBefore(tr, b.rd[k], b.wr[j])
  {
    var m := tr[b.lr[j]].val;
    assert PopRecord(tr, b, k);
    assert b.rd[k] < b.sr[k + 1] <= b.sr[m];
    assert IsStoreRead(tr, b.sr[m], m);
    ThroughSync(tr, b.rd[k], b.sr[m], b.lr[j], b.wr[j]);
  }

  // ----- growing the trace -----

  /** `tr2` and `b2` continue `tr1` and `b1`. */
  predicate Continues(tr1: seq<Event>, b1: Book, tr2: seq<Event>, b2: Book) {
    && tr1 <= tr2
    && b1.sw <= b2.sw && b1.sr <= b2.sr && b1.wr <= b2.wr && b1.rd <= b2.rd && b1.lr <= b2.lr && b1.lw <= b2.lw
    && |b2.wr| == |b2.lr| && |b2.rd| == |b2.lw|
  }

  lemma WriteStoresKept(tr: seq<Event>, b: Book, e: Event, b': Book)
    requires WriteStores(tr, b) && !e.StoreWrite? && b'.sw == b.sw
    ensures WriteStores(tr + [e], b')
  {
    forall k | 0 <= k < |b.sw|
      ensures IsStoreWrite(tr + [e], b.sw[k], k)
    {
      assert IsStoreWrite(tr, b.sw[k], k);
    }
  }

  lemma ReadStoresKept(tr: seq<Event>, b: Book, e: Event, b': Book)
    requires ReadStores(tr, b) && !e.StoreRead? && b'.sr == b.sr
    ensures ReadStores(tr + [e], b')
  {
    forall k | 0 <= k < |b.sr|
      ensures IsStoreRead(tr + [e], b.sr[k], k)
    {
      assert IsStoreRead(tr, b.sr[k], k);
    }
  }

  lemma StoreViewsKept(tr: seq<Event>, e: Event)
    requires StoreViews(tr) && (e.StoreWrite? || e.StoreRead? ==> ViewInv(tr + [e], e.view))
    ensures StoreViews(tr + [e])
  {
    var tr' := tr + [e];
    forall i | 0 <= i < |tr'| && (tr'[i].StoreWrite? || tr'[i].StoreRead?)
      ensures ViewInv(tr', tr'[i].view)
    {
      assert i < |tr| ==> ViewInv(tr, tr[i].view);
    }
  }

  lemma PushRecordsKept(tr: seq<Event>, b: Book, size: nat, e: Event, b': Book)
    requires Continues(tr, b, tr + [e], b') && PushRecords(tr, b, size) && !e.SlotWrite?
    requires b.sw != [] && b'.wr == b.wr && b'.lr == b.lr
    requires b'.sw == b.sw || (b'.sw == b.sw + [|tr|] && |b.wr| == Pushes(b) + 1)
    ensures PushRecords(tr + [e], b', size)
  {
    forall k | 0 <= k < |b.wr|
      ensures PushRecord(tr + [e], b', size, k)
    {
      assert PushRecord(tr, b, size, k);
    }
  }

  lemma PopRecordsKept(tr: seq<Event>, b: Book, e: Event, b': Book)
    requires Continues(tr, b, tr + [e], b') && PopRecords(tr, b) && !e.SlotRead?
    requires b.sr != [] && b'.rd == b.rd && b'.lw == b.lw
    requires b'.sr == b.sr || (b'.sr == b.sr + [|tr|] && |b.rd| == Pops(b) + 1)
    ensures PopRecords(tr + [e], b')
  {
    forall k | 0 <= k < |b.rd|
      ensures PopRecord(tr + [e], b', k)
    {
      assert PopRecord(tr, b, k);
    }
  }

  lemma ReadsKept(tr: seq<Event>, b: Book, e: Event, b': Book)
    requires Continues(tr, b, tr + [e], b') && AllReadOwn(tr, b) && b'.rd == b.rd
    ensures AllReadOwn(tr + [e], b')
  {
    forall k | 0 <= k < |b.rd|
      ensures ReadsOwn(tr + [e], b', k)
    {
      assert ReadsOwn(tr, b, k);
    }
  }

  /** A load changes nothing that the invariant speaks of. */
  lemma AddLoad(tr: seq<Event>, b: Book, size: nat, e: Event)
    requires TraceInv(tr, b, size) && (e.LoadWrite? || e.LoadRead?)
    ensures TraceInv(tr + [e], b, size)
  {
    WriteStoresKept(tr, b, e, b);
    ReadStoresKept(tr, b, e, b);
    PushRecordsKept(tr, b, size, e, b);
    PopRecordsKept(tr, b, e, b);
    StoreViewsKept(tr, e);
    ReadsKept(tr, b, e, b);
  }

  lemma AddStoreWrite(tr: seq<Event>, b: Book, view: View)
    requires WriteStores(tr, b)
    ensures WriteStores(tr + [StoreWrite(Producer, Pushes(b) + 1, view)], b.(sw := b.sw + [|tr|]))
  {
    var tr', b' := tr + [StoreWrite(Producer, Pushes(b) + 1, view)], b.(sw := b.sw + [|tr|]);
    forall k | 0 <= k < |b'.sw|
      ensures IsStoreWrite(tr', b'.sw[k], k)
    {
      assert k < |b.sw| ==> IsStoreWrite(tr, b.sw[k], k);
    }
    forall j, k | 0 <= j < k < |b'.sw|
      ensures b'.sw[j] < b'.sw[k]
    {
      assert IsStoreWrite(tr, b.sw[j], j);
    }
  }

  lemma AddStoreRead(tr: seq<Event>, b: Book, view: View)
    requires ReadStores(tr, b)
    ensures ReadStores(tr + [StoreRead(Consumer, Pops(b) + 1, view)], b.(sr := b.sr + [|tr|]))
  {
    var tr', b' := tr + [StoreRead(Consumer, Pops(b) + 1, view)], b.(sr := b.sr + [|tr|]);
    forall k | 0 <= k < |b'.sr|
      ensures IsStoreRead(tr', b'.sr[k], k)
    {
      assert k < |b.sr| ==> IsStoreRead(tr, b.sr[k], k);
    }
    forall j, k | 0 <= j < k < |b'.sr|
      ensures b'.sr[j] < b'.sr[k]
    {
      assert IsStoreRead(tr, b.sr[j], j);
    }
  }

  /** The release store of `write` publishes the slot just filled. */
  lemma Publish(tr: seq<Event>, b: Book, size: nat, view: View)
    requires TraceInv(tr, b, size) && |b.wr| == Pushes(b) + 1
    requires ViewInv(tr + [StoreWrite(Producer, Pushes(b) + 1, view)], view)
    ensures TraceInv(tr + [StoreWrite(Producer, Pushes(b) + 1, view)], b.(sw := b.sw + [|tr|]), size)
  {
    var e, b' := StoreWrite(Producer, Pushes(b) + 1, view), b.(sw := b.sw + [|tr|]);
    AddStoreWrite(tr, b, view);
    ReadStoresKept(tr, b, e, b');
    PushRecordsKept(tr, b, size, e, b');
    PopRecordsKept(tr, b, e, b');
    StoreViewsKept(tr, e);
    ReadsKept(tr, b, e, b');
  }

  /** The release store of `read` gives the slot just emptied back. */
  lemma GiveBack(tr: seq<Event>, b: Book, size: nat, view: View)
    requires TraceInv(tr, b, size) && |b.rd| == Pops(b) + 1
    requires ViewInv(tr + [StoreRead(Consumer, Pops(b) + 1, view)], view)
    ensures TraceInv(tr + [StoreRead(Consumer, Pops(b) + 1, view)], b.(sr := b.sr + [|tr|]), size)
  {
    var e, b' := StoreRead(Consumer, Pops(b) + 1, view), b.(sr := b.sr + [|tr|]);
    AddStoreRead(tr, b, view);
    WriteStoresKept(tr, b, e, b');
    PushRecordsKept(tr, b, size, e, b');
    PopRecordsKept(tr, b, e, b');
    StoreViewsKept(tr, e);
    ReadsKept(tr, b, e, b');
  }

  lemma AddSlotWrite(tr: seq<Event>, b: Book, size: nat, seen: nat, v: int)
    requires b.sw != [] && PushRecords(tr, b, size) && |b.wr| == Pushes(b) && SawRoom(tr, b, size, seen, Pushes(b))
    ensures PushRecords(tr + [SlotWrite(Pushes(b), v)], b.(wr := b.wr + [|tr|], lr := b.lr + [seen]), size)
  {
    var tr', b' := tr + [SlotWrite(Pushes(b), v)], b.(wr := b.wr + [|tr|], lr := b.lr + [seen]);
    forall k | 0 <= k < |b'.wr|
      ensures PushRecord(tr', b', size, k)
    {
      assert k < |b.wr| ==> PushRecord(tr, b, size, k);
    }
    forall j, k | 0 <= j < k < |b'.wr|
      ensures b'.wr[j] < b'.wr[k]
    {
      assert PushRecord(tr, b, size, j);
    }
  }

  lemma AddSlotRead(tr: seq<Event>, b: Book, seen: nat, origin: int, x: int)
    requires b.sr != [] && PopRecords(tr, b) && |b.rd| == Pops(b) && SawData(tr, b, seen, Pops(b))
    ensures PopRecords(tr + [SlotRead(Pops(b), origin, x)], b.(rd := b.rd + [|tr|], lw := b.lw + [seen]))
    ensures PopRecord(tr + [SlotRead(Pops(b), origin, x)], b.(rd := b.rd + [|tr|], lw := b.lw + [seen]), Pops(b))
  {
    var tr', b' := tr + [SlotRead(Pops(b), origin, x)], b.(rd := b.rd + [|tr|], lw := b.lw + [seen]);
    forall k | 0 <= k < |b'.rd|
      ensures PopRecord(tr', b', k)
    {
      assert k < |b.rd| ==> PopRecord(tr, b, k);
    }
    forall j, k | 0 <= j < k < |b'.rd|
      ensures b'.rd[j] < b'.rd[k]
    {
      assert PopRecord(tr, b, j);
    }
  }

  /** Filling a slot after having seen room for it. */
  lemma Fill(tr: seq<Event>, b: Book, size: nat, seen: nat, v: int)
    requires TraceInv(tr, b, size) && |b.wr| == Pushes(b) && SawRoom(tr, b, size, seen, Pushes(b))
    ensures TraceInv(tr + [SlotWrite(Pushes(b), v)], b.(wr := b.wr + [|tr|], lr := b.lr + [seen]), size)
  {
    var e, b' := SlotWrite(Pushes(b), v), b.(wr := b.wr + [|tr|], lr := b.lr + [seen]);
    WriteStoresKept(tr, b, e, b');
    ReadStoresKept(tr, b, e, b');
    AddSlotWrite(tr, b, size, seen, v);
    PopRecordsKept(tr, b, e, b');
    StoreViewsKept(tr, e);
    ReadsKept(tr, b, e, b');
  }

  lemma AddRead(tr: seq<Event>, b: Book, size: nat, seen: nat, origin: int, x: int)
    requires AllReadOwn(tr, b) && |b.rd| == Pops(b) < |b.wr| && PushRecord(tr, b, size, Pops(b))
    requires origin == b.wr[Pops(b)] && x == SlotValue(tr, origin, x)
    ensures AllReadOwn(tr + [SlotRead(Pops(b), origin, x)], b.(rd := b.rd + [|tr|], lw := b.lw + [seen]))
  {
    var tr', b' := tr + [SlotRead(Pops(b), origin, x)], b.(rd := b.rd + [|tr|], lw := b.lw + [seen]);
    forall k | 0 <= k < |b'.rd|
      ensures ReadsOwn(tr', b', k)
    {
      assert k < |b.rd| ==> ReadsOwn(tr, b, k);
    }
  }

  /** Emptying a slot, whose value came from the push of the same index. */
  lemma Drain(tr: seq<Event>, b: Book, size: nat, seen: nat, origin: int, x: int)
    requires TraceInv(tr, b, size) && |b.rd| == Pops(b) < |b.wr| && SawData(tr, b, seen, Pops(b))
    requires origin == b.wr[Pops(b)] && x == SlotValue(tr, origin, x)
    ensures TraceInv(tr + [SlotRead(Pops(b), origin, x)], b.(rd := b.rd + [|tr|], lw := b.lw + [seen]), size)
  {
    var e, b' := SlotRead(Pops(b), origin, x), b.(rd := b.rd + [|tr|], lw := b.lw + [seen]);
    WriteStoresKept(tr, b, e, b');
    ReadStoresKept(tr, b, e, b');
    PushRecordsKept(tr, b, size, e, b');
    AddSlotRead(tr, b, seen, origin, x);
    assert PushRecord(tr, b, size, Pops(b));
    StoreViewsKept(tr, e);
    AddRead(tr, b, size, seen, origin, x);
  }

  // ----- what a slot read can see -----

  /** The pop about to read slot `k` comes after the push of `k`, whatever it reads. */
  lemma OwnPushFirst(tr: seq<Event>, b: Book, size: nat, seen: nat, origin: int, x: int)
    requires TraceInv(tr, b, size) && |b.rd| == Pops(b) < |b.wr| && SawData(tr, b, seen, Pops(b))
    ensures HappensBefore(tr + [SlotRead(Pops(b), origin, x)], b.wr[Pops(b)], |tr|)
  {
    var k := Pops(b);
    var e, b' := SlotRead(k, origin, x), b.(rd := b.rd + [|tr|], lw := b.lw + [seen]);
    WriteStoresKept(tr, b, e, b');
    PushRecordsKept(tr, b, size, e, b');
    AddSlotRead(tr, b, seen, origin, x);
    PushBeforePop(tr + [e], b', size, k, k);
  }

  /** A slot write followed by a second one that precedes the read is hidden from it. */
  lemma Hidden(tr: seq<Event>, size: nat, n: nat, k: int, first: nat, second: nat)
    requires size > 0 && first < second && SameSlotWrite(tr, size, first, k) && SameSlotWrite(tr, size, second, k)
    requires HappensBefore(tr, second, n)
    ensures !MayReadFrom(tr, size, n, k, first)
    ensures !MayReadFrom(tr, size, n, k, -1)
  {
    assert Edge(tr, first, second);
    assert HappensBefore(tr, first, second);
  }

  /** In spite of stale loads, the only value the rules let a pop take is the one pushed at its own
      index: earlier ones in the slot are hidden by it, later ones cannot have been written yet. */
  lemma OwnOrigin(tr: seq<Event>, b: Book, size: nat, seen: nat, origin: int, x: int)
    requires TraceInv(tr, b, size) && |b.rd| == Pops(b) < |b.wr| && SawData(tr, b, seen, Pops(b))
    requires MayReadFrom(tr + [SlotRead(Pops(b), origin, x)], size, |tr|, Pops(b), origin)
    ensures origin == b.wr[Pops(b)]
  {
    var k := Pops(b);
    var tr' := tr + [SlotRead(k, origin, x)];
    OwnPushFirst(tr, b, size, seen, origin, x);
    assert SameSlotWrite(tr', size, b.wr[k], k) by {
      assert PushRecord(tr, b, size, k);
    }
    if origin >= 0 {
      assert SameSlotWrite(tr, size, origin, k);
      var j := tr[origin].k;
      assert 0 <= j < |b.wr| && b.wr[j] == origin;
      if j < k {
        Hidden(tr', size, |tr|, k, origin, b.wr[k]);
      } else if k < j {
        LaterRoundFirst(tr, b, size, k, j);
      }
    }
  }

  /** And the rules do let it take that one. */
  lemma OwnOriginAllowed(tr: seq<Event>, b: Book, size: nat, origin: int, x: int)
    requires TraceInv(tr, b, size) && |b.rd| == Pops(b) < |b.wr| && origin == b.wr[Pops(b)]
    ensures MayReadFrom(tr + [SlotRead(Pops(b), origin, x)], size, |tr|, Pops(b), origin)
  {
    var k := Pops(b);
    var tr' := tr + [SlotRead(k, origin, x)];
    assert PushRecord(tr, b, size, k);
    forall y: nat
      ensures SameSlotWrite(tr', size, y, k) && HappensBefore(tr', origin, y) ==> !HappensBefore(tr', y, |tr|)
    {
      if SameSlotWrite(tr', size, y, k) && HappensBefore(tr', origin, y) {
        var j := tr[y].k;
        if k < j {
          LaterRoundFirst(tr, b, size, k, j);
        }
        assert false;
      }
    }
  }

  /** A push of a later round into the slot of index `k` cannot precede the pop of `k`. */
  lemma LaterRoundFirst(tr: seq<Event>, b: Book, size: nat, k: nat, j: nat)
    requires TraceInv(tr, b, size) && k < j < |b.wr| && j % size == k % size
    ensures k < Pops(b)
  {
    if j < k + size {
      SlotsDiffer(k, j, size);
    } else {
      assert PushRecord(tr, b, size, j);
      PopBeforePush(tr, b, size, k, j);
    }
  }

  // ----- the steps keep the invariant -----

  lemma NoLaterWrite(tr: seq<Event>, b: Book, i: nat)
    requires WriteStores(tr, b) && i < |tr| && tr[i].StoreWrite?
    ensures i <= b.sw[|b.sw| - 1] && (i == b.sw[|b.sw| - 1] ==> tr[i].val == Pushes(b))
  {
    assert b.sw[tr[i].val] == i;
    assert IsStoreWrite(tr, b.sw[|b.sw| - 1], |b.sw| - 1);
  }

  lemma NoLaterRead(tr: seq<Event>, b: Book, i: nat)
    requires ReadStores(tr, b) && i < |tr| && tr[i].StoreRead?
    ensures i <= b.sr[|b.sr| - 1] && (i == b.sr[|b.sr| - 1] ==> tr[i].val == Pops(b))
  {
    assert b.sr[tr[i].val] == i;
    assert IsStoreRead(tr, b.sr[|b.sr| - 1], |b.sr| - 1);
  }

  lemma StoreView(tr: seq<Event>, b: Book, i: nat)
    requires WriteStores(tr, b) && ReadStores(tr, b) && StoreViews(tr)
    requires i < |tr| && (tr[i].StoreWrite? || tr[i].StoreRead?)
    ensures ViewInv(tr, tr[i].view)
    ensures tr[i].view.write <= b.sw[|b.sw| - 1] && tr[i].view.read <= b.sr[|b.sr| - 1]
  {
    assert ViewInv(tr, tr[i].view);
    NoLaterWrite(tr, b, tr[i].view.write);
    NoLaterRead(tr, b, tr[i].view.read);
  }

  lemma JoinView(tr: seq<Event>, v1: View, v2: View, e: Event)
    requires ViewInv(tr, v1) && ViewInv(tr, v2)
    ensures ViewInv(tr + [e], Join(v1, v2))
  {
  }

  /** A load keeps a thread's view sound, and a thread never learns of a store to its own index
      newer than its last. */
  lemma LoadedWriteView(tr: seq<Event>, b: Book, view: View, from: nat, e: Event)
    requires WriteStores(tr, b) && ReadStores(tr, b) && StoreViews(tr) && ViewInv(tr, view)
    requires from < |tr| && tr[from].StoreWrite?
    ensures ViewInv(tr + [e], AfterLoadWrite(view, tr[from], from))
    ensures from == view.write == b.sw[|b.sw| - 1] ==> AfterLoadWrite(view, tr[from], from).write == view.write
    ensures view.read == b.sr[|b.sr| - 1] ==> AfterLoadWrite(view, tr[from], from).read == view.read
    ensures view.write <= AfterLoadWrite(view, tr[from], from).write
    ensures from <= AfterLoadWrite(view, tr[from], from).write
  {
    StoreView(tr, b, from);
    JoinView(tr, view, tr[from].view, e);
  }

  lemma LoadedReadView(tr: seq<Event>, b: Book, view: View, from: nat, e: Event)
    requires WriteStores(tr, b) && ReadStores(tr, b) && StoreViews(tr) && ViewInv(tr, view)
    requires from < |tr| && tr[from].StoreRead?
    ensures ViewInv(tr + [e], AfterLoadRead(view, tr[from], from))
    ensures from == view.read == b.sr[|b.sr| - 1] ==> AfterLoadRead(view, tr[from], from).read == view.read
    ensures view.write == b.sw[|b.sw| - 1] ==> AfterLoadRead(view, tr[from], from).write == view.write
    ensures view.write <= AfterLoadRead(view, tr[from], from).write
  {
    StoreView(tr, b, from);
    JoinView(tr, view, tr[from].view, e);
  }

  /** What one side does leaves the other side's knowledge standing. */
  lemma ConsumerKept(s: State, s': State, e: Event)
    requires ConsumerInv(s) && s'.tr == s.tr + [e] && s'.c == s.c && s'.cv == s.cv
    requires s'.book.sr == s.book.sr && s'.book.rd == s.book.rd
    requires s'.book.sw == s.book.sw || (s'.book.sw == s.book.sw + [|s.tr|] && Pushes(s.book) < INT_MAX)
    ensures ConsumerInv(s')
  {
  }

  lemma ProducerKept(s: State, s': State, e: Event)
    requires ProducerInv(s) && s'.tr == s.tr + [e] && s'.p == s.p && s'.pv == s.pv && s'.size == s.size
    requires s'.book.sw == s.book.sw && s'.book.wr == s.book.wr
    requires s'.book.sr == s.book.sr || s'.book.sr == s.book.sr + [|s.tr|]
    ensures ProducerInv(s')
  {
  }

  lemma LoadTailKnows(s: State, from: int)
    requires WriteStores(s.tr, s.book) && ReadStores(s.tr, s.book) && StoreViews(s.tr) && ProducerInv(s)
    requires s.p.PCalled? && CanLoadWrite(s.tr, s.pv, from)
    ensures ProducerInv(LoadTail(s, from))
  {
    NoLaterWrite(s.tr, s.book, from);
    LoadedWriteView(s.tr, s.book, s.pv, from, LoadWrite(Producer, from, s.tr[from].val));
    SuccessorExact(Pushes(s.book));
  }

  lemma TestRoomKnows(s: State, from: int)
    requires WriteStores(s.tr, s.book) && ReadStores(s.tr, s.book) && StoreViews(s.tr) && ProducerInv(s)
    requires s.p.PLoaded? && CanLoadRead(s.tr, s.pv, from)
    ensures ProducerInv(TestRoom(s, from))
  {
    LoadedReadView(s.tr, s.book, s.pv, from, LoadRead(Producer, from, s.tr[from].val));
    assert s.book.sr[s.tr[from].val] == from;
  }

  lemma LoadHeadKnows(s: State, from: int)
    requires WriteStores(s.tr, s.book) && ReadStores(s.tr, s.book) && StoreViews(s.tr) && ConsumerInv(s)
    requires s.c.CCalled? && CanLoadRead(s.tr, s.cv, from)
    ensures ConsumerInv(LoadHead(s, from))
  {
    NoLaterRead(s.tr, s.book, from);
    LoadedReadView(s.tr, s.book, s.cv, from, LoadRead(Consumer, from, s.tr[from].val));
  }

  lemma TestDataKnows(s: State, from: int)
    requires WriteStores(s.tr, s.book) && ReadStores(s.tr, s.book) && StoreViews(s.tr) && ConsumerInv(s)
    requires s.c.CLoaded? && CanLoadWrite(s.tr, s.cv, from)
    ensures ConsumerInv(TestData(s, from))
  {
    var b, val := s.book, s.tr[from].val;
    LoadedWriteView(s.tr, b, s.cv, from, LoadWrite(Consumer, from, val));
    assert b.sw[val] == from;
    assert val >= s.c.head by {
      if val < s.c.head {
        assert false;
      }
    }
    assert val > s.c.head ==> b.sw[s.c.head + 1] <= b.sw[val];
  }

  lemma LoadTailInv(s: State, from: int)
    requires Inv(s) && s.p.PCalled? && CanLoadWrite(s.tr, s.pv, from)
    ensures Inv(LoadTail(s, from))
  {
    var e := LoadWrite(Producer, from, s.tr[from].val);
    AddLoad(s.tr, s.book, s.size, e);
    LoadTailKnows(s, from);
    ConsumerKept(s, LoadTail(s, from), e);
  }

  lemma TestRoomInv(s: State, from: int)
    requires Inv(s) && s.p.PLoaded? && CanLoadRead(s.tr, s.pv, from)
    ensures Inv(TestRoom(s, from))
  {
    var e := LoadRead(Producer, from, s.tr[from].val);
    AddLoad(s.tr, s.book, s.size, e);
    TestRoomKnows(s, from);
    ConsumerKept(s, TestRoom(s, from), e);
  }

  lemma FillSlotInv(s: State)
    requires Inv(s) && s.p.PRoom?
    ensures Inv(FillSlot(s))
  {
    Fill(s.tr, s.book, s.size, s.p.seen, s.p.v);
    ConsumerKept(s, FillSlot(s), SlotWrite(s.p.tail, s.p.v));
  }

  lemma StoreTailInv(s: State)
    requires Inv(s) && s.p.PStored?
    ensures Inv(StoreTail(s))
  {
    var view := s.pv.(write := |s.tr|);
    Publish(s.tr, s.book, s.size, view);
    ConsumerKept(s, StoreTail(s), StoreWrite(Producer, s.p.next, view));
  }

  lemma LoadHeadInv(s: State, from: int)
    requires Inv(s) && s.c.CCalled? && CanLoadRead(s.tr, s.cv, from)
    ensures Inv(LoadHead(s, from))
  {
    var e := LoadRead(Consumer, from, s.tr[from].val);
    AddLoad(s.tr, s.book, s.size, e);
    LoadHeadKnows(s, from);
    ProducerKept(s, LoadHead(s, from), e);
  }

  lemma TestDataInv(s: State, from: int)
    requires Inv(s) && s.c.CLoaded? && CanLoadWrite(s.tr, s.cv, from)
    ensures Inv(TestData(s, from))
  {
    var e := LoadWrite(Consumer, from, s.tr[from].val);
    AddLoad(s.tr, s.book, s.size, e);
    TestDataKnows(s, from);
    ProducerKept(s, TestData(s, from), e);
  }

  lemma DrainSlotKnows(s: State, origin: int, junk: int)
    requires s.size > 0 && ConsumerInv(s) && s.c.CSome? && |s.book.rd| == Pops(s.book)
    ensures ConsumerInv(DrainSlot(s, origin, junk))
  {
  }

  lemma DrainSlotInv(s: State, origin: int, junk: int)
    requires Inv(s) && s.c.CSome?
    requires origin == s.book.wr[Pops(s.book)]
    ensures Inv(DrainSlot(s, origin, junk))
  {
    var x := SlotValue(s.tr, origin, junk);
    assert PushRecord(s.tr, s.book, s.size, s.c.head);
    Drain(s.tr, s.book, s.size, s.c.seen, origin, x);
    DrainSlotKnows(s, origin, junk);
    ProducerKept(s, DrainSlot(s, origin, junk), SlotRead(s.c.head, origin, x));
  }

  lemma StoreHeadInv(s: State)
    requires Inv(s) && s.c.CRead?
    ensures Inv(StoreHead(s))
  {
    var view := s.cv.(read := |s.tr|);
    SuccessorExact(s.c.head);
    GiveBack(s.tr, s.book, s.size, view);
    ProducerKept(s, StoreHead(s), StoreRead(Consumer, Successor(s.c.head), view));
  }

  lemma PushCallInv(s: State, v: int)
    requires Inv(s)
    ensures s.p.PIdle? && CallInRange(s.tr, s.pv) ==> Inv(s.(p := PCalled(v)))
    ensures s.p.PDone? ==> Inv(s.(p := PIdle))
  {
    assert IsStoreWrite(s.tr, s.pv.write, Pushes(s.book));
  }

  lemma PopCallInv(s: State)
    requires Inv(s)
    ensures s.c.CIdle? ==> Inv(s.(c := CCalled))
    ensures s.c.CDone? ==> Inv(s.(c := CIdle))
  {
  }

  lemma ProducerStepInv(s: State, a: Action)
    requires Inv(s) && ProducerCan(s, a)
    ensures Inv(StepProducer(s, a)) && StepProducer(s, a).size == s.size
  {
    match s.p {
      case PCalled(_) => LoadTailInv(s, a.from);
      case PLoaded(_, _, _) => TestRoomInv(s, a.from);
      case PRoom(_, _, _, _) => FillSlotInv(s);
      case PStored(_, _, _) => StoreTailInv(s);
      case _ => PushCallInv(s, a.v);
    }
  }

  lemma ConsumerStepInv(s: State, a: Action)
    requires Inv(s) && ConsumerCan(s, a)
    ensures Inv(StepConsumer(s, a)) && StepConsumer(s, a).size == s.size
  {
    match s.c {
      case CCalled => LoadHeadInv(s, a.from);
      case CLoaded(_) => TestDataInv(s, a.from);
      case CSome(head, seen) =>
        OwnOrigin(s.tr, s.book, s.size, seen, a.from, SlotValue(s.tr, a.from, a.junk));
        DrainSlotInv(s, a.from, a.junk);
      case CRead(_, _) => StoreHeadInv(s);
      case _ => PopCallInv(s);
    }
  }

  lemma InitialInv(size: nat)
    requires size > 0
    ensures Inv(Initial(size))
  {
    var s := Initial(size);
    assert IsStoreWrite(s.tr, 0, 0) && IsStoreRead(s.tr, 1, 0);
  }

  lemma {:induction false} RunInv(ss: seq<State>, acts: seq<Action>, size: nat, i: nat)
    requires IsRun(ss, acts, size) && i < |ss|
    ensures Inv(ss[i]) && ss[i].size == size
  {
    if i == 0 {
      InitialInv(size);
    } else {
      RunInv(ss, acts, size, i - 1);
      var s, a := ss[i - 1], acts[i - 1];
      assert Enabled(s, a);
      if a.side == Producer {
        ProducerStepInv(s, a);
      } else {
        ConsumerStepInv(s, a);
      }
    }
  }

  // ----- main results -----

  predicate SlotAccess(e: Event) {
    e.SlotWrite? || e.SlotRead?
  }

  function IndexOf(e: Event): int
    requires SlotAccess(e)
  {
    e.k
  }

  /** Two accesses to the same slot by different threads, at least one of them a write. */
  predicate Conflict(tr: seq<Event>, size: nat, i: nat, j: nat)
    requires size > 0
  {
    && i < |tr| && j < |tr| && SlotAccess(tr[i]) && SlotAccess(tr[j])
    && Remainder(IndexOf(tr[i]), size) == Remainder(IndexOf(tr[j]), size)
    && tr[i].SlotWrite? && tr[j].SlotRead?
  }

  lemma ConflictOrdered(tr: seq<Event>, b: Book, size: nat, i: nat, j: nat)
    requires TraceInv(tr, b, size) && Conflict(tr, size, i, j)
    ensures HappensBefore(tr, i, j) || HappensBefore(tr, j, i)
  {
    var p, q := tr[i].k, tr[j].k;
    assert b.wr[p] == i && b.rd[q] == j;
    assert PushRecord(tr, b, size, p) && PopRecord(tr, b, q);
    if p <= q {
      PushBeforePop(tr, b, size, p, q);
    } else if p < q + size {
      SlotsDiffer(q, p, size);
    } else {
      PopBeforePush(tr, b, size, q, p);
    }
  }

  /** In every execution, stale loads included, any two conflicting accesses of the two threads to one
      buffer slot are ordered by happens-before: there is no data race. */
  lemma RaceFree(ss: seq<State>, acts: seq<Action>, size: nat, n: nat, i: nat, j: nat)
    requires IsRun(ss, acts, size) && n < |ss| && Conflict(ss[n].tr, size, i, j)
    ensures HappensBefore(ss[n].tr, i, j) || HappensBefore(ss[n].tr, j, i)
  {
    RunInv(ss, acts, size, n);
    ConflictOrdered(ss[n].tr, ss[n].book, size, i, j);
  }

  /** The values written to slots, and read from them, in the order of the trace. */
  function Filled(tr: seq<Event>): seq<int> {
    if tr == [] then []
    else
      var e := tr[|tr| - 1];
      Filled(tr[..|tr| - 1]) + if e.SlotWrite? then [e.v] else []
  }

  function Drained(tr: seq<Event>): seq<int> {
    if tr == [] then []
    else
      var e := tr[|tr| - 1];
      Drained(tr[..|tr| - 1]) + if e.SlotRead? then [e.v] else []
  }

  /** In every execution the pop of index `k` reads the slot write of index `k`, made earlier, and so
      returns exactly the value pushed at index `k`. */
  lemma PopReturnsItsPush(ss: seq<State>, acts: seq<Action>, size: nat, n: nat, j: nat)
    requires IsRun(ss, acts, size) && n < |ss|
    requires j < |ss[n].tr| && ss[n].tr[j].SlotRead?
    ensures var e := ss[n].tr[j];
      && 0 <= e.origin < j && ss[n].tr[e.origin] == SlotWrite(e.k, e.v)
      && HappensBefore(ss[n].tr, e.origin, j)
  {
    RunInv(ss, acts, size, n);
    var tr, b := ss[n].tr, ss[n].book;
    var k := tr[j].k;
    assert ReadsOwn(tr, b, k) && PushRecord(tr, b, size, k) && PopRecord(tr, b, k);
    PushBeforePop(tr, b, size, k, k);
  }

  /** The book lists the slot writes and reads, in the order of the trace. */
  predicate Tallies(tr: seq<Event>, b: Book) {
    && |Filled(tr)| == |b.wr| && |Drained(tr)| == |b.rd|
    && (forall k :: 0 <= k < |b.wr| ==> b.wr[k] < |tr| && tr[b.wr[k]].SlotWrite? && Filled(tr)[k] == tr[b.wr[k]].v)
    && (forall k :: 0 <= k < |b.rd| ==> b.rd[k] < |tr| && tr[b.rd[k]].SlotRead? && Drained(tr)[k] == tr[b.rd[k]].v)
  }

  lemma TallyGrows(tr: seq<Event>, b: Book, e: Event, b': Book)
    requires Tallies(tr, b)
    requires b'.wr == b.wr + if e.SlotWrite? then [|tr|] else []
    requires b'.rd == b.rd + if e.SlotRead? then [|tr|] else []
    ensures Tallies(tr + [e], b')
  {
    assert (tr + [e])[..|tr|] == tr;
  }

  lemma ProducerTallies(s: State, a: Action)
    requires s.size > 0 && ProducerCan(s, a) && Tallies(s.tr, s.book)
    ensures Tallies(StepProducer(s, a).tr, StepProducer(s, a).book)
  {
    var s' := StepProducer(s, a);
    if s'.tr != s.tr {
      TallyGrows(s.tr, s.book, s'.tr[|s.tr|], s'.book);
    }
  }

  lemma ConsumerTallies(s: State, a: Action)
    requires s.size > 0 && ConsumerCan(s, a) && Tallies(s.tr, s.book)
    ensures Tallies(StepConsumer(s, a).tr, StepConsumer(s, a).book)
  {
    var s' := StepConsumer(s, a);
    if s'.tr != s.tr {
      TallyGrows(s.tr, s.book, s'.tr[|s.tr|], s'.book);
    }
  }

  lemma {:induction false} NoAccesses(tr: seq<Event>)
    requires forall i :: 0 <= i < |tr| ==> !SlotAccess(tr[i])
    ensures Filled(tr) == [] && Drained(tr) == []
  {
    if tr != [] {
      NoAccesses(tr[..|tr| - 1]);
      assert !SlotAccess(tr[|tr| - 1]);
    }
  }

  lemma StepTallies(s: State, a: Action)
    requires Enabled(s, a) && Tallies(s.tr, s.book)
    ensures Tallies(Step(s, a).tr, Step(s, a).book)
  {
    if a.side == Producer {
      ProducerTallies(s, a);
    } else {
      ConsumerTallies(s, a);
    }
  }

  lemma {:induction false} RunTallies(ss: seq<State>, acts: seq<Action>, size: nat, i: nat)
    requires IsRun(ss, acts, size) && i < |ss|
    ensures Tallies(ss[i].tr, ss[i].book)
  {
    if i == 0 {
      NoAccesses(Initial(size).tr);
    } else {
      RunTallies(ss, acts, size, i - 1);
      StepTallies(ss[i - 1], acts[i - 1]);
    }
  }

  /** In every execution the values popped are a prefix of the values pushed: nothing is lost,
      duplicated, reordered or made up. */
  lemma PopsArePrefixOfPushes(ss: seq<State>, acts: seq<Action>, size: nat, n: nat)
    requires IsRun(ss, acts, size) && n < |ss|
    ensures Drained(ss[n].tr) <= Filled(ss[n].tr)
  {
    RunInv(ss, acts, size, n);
    RunTallies(ss, acts, size, n);
    var tr, b := ss[n].tr, ss[n].book;
    forall k | 0 <= k < |b.rd|
      ensures k < |b.wr| && Drained(tr)[k] == Filled(tr)[k]
    {
      assert ReadsOwn(tr, b, k);
    }
    if b.rd != [] {
      assert ReadsOwn(tr, b, |b.rd| - 1);
    }
  }

  /** Slots filled and slots emptied are never more than the size apart. */
  lemma LagWithinSize(tr: seq<Event>, b: Book, size: nat)
    requires TraceInv(tr, b, size)
    ensures |b.wr| - |b.rd| <= size
  {
    if b.wr != [] {
      assert PushRecord(tr, b, size, |b.wr| - 1);
    }
  }

  /** In every execution no access leaves the buffer, and at most as many values as the buffer holds
      have been pushed and not popped. */
  lemma StaysInBuffer(ss: seq<State>, acts: seq<Action>, size: nat, n: nat)
    requires IsRun(ss, acts, size) && n < |ss|
    ensures !ss[n].fault
    ensures |Filled(ss[n].tr)| - |Drained(ss[n].tr)| <= size
  {
    RunInv(ss, acts, size, n);
    RunTallies(ss, acts, size, n);
    LagWithinSize(ss[n].tr, ss[n].book, size);
  }
}
