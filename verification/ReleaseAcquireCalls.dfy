/** What callers see of the acquire/release ring: which arguments come out of it as answers, and when a
    call is refused. */
module ReleaseAcquireCalls {
  import opened Int32
  import opened Modulo
  import opened ReleaseAcquireRing

  // ----- arguments and answers -----

  /** The argument of the producer's latest call, read off the actions. */
  function Argument(ss: seq<State>, acts: seq<Action>, n: nat): int
    requires n <= |acts| < |ss|
  {
    if n == 0 then 0
    else if acts[n - 1].side == Producer && ss[n - 1].p.PIdle? then acts[n - 1].v
    else Argument(ss, acts, n - 1)
  }

  /** The arguments of the calls of `try_push` that have returned true. */
  function Pushed(ss: seq<State>, acts: seq<Action>, n: nat): seq<int>
    requires n <= |acts| < |ss|
  {
    if n == 0 then []
    else
      var before := Pushed(ss, acts, n - 1);
      if acts[n - 1].side == Producer && ss[n - 1].p == PDone(true) then before + [Argument(ss, acts, n - 1)]
      else before
  }

  /** The values that the calls of `try_pop` that have returned true handed out. */
  function Popped(ss: seq<State>, acts: seq<Action>, n: nat): seq<int>
    requires n <= |acts| < |ss|
  {
    if n == 0 then []
    else
      var before := Popped(ss, acts, n - 1);
      if acts[n - 1].side == Consumer && ss[n - 1].c.CDone? && ss[n - 1].c.ok then before + [ss[n - 1].c.x]
      else before
  }

  /** Slots were filled with the arguments of the calls, in order. */
  predicate FilledWith(s: State, pushed: seq<int>, argument: int) {
    && (s.p.PCalled? || s.p.PLoaded? || s.p.PRoom? || s.p.PStored? ==> s.p.v == argument)
    && Filled(s.tr) == pushed + if s.p.PStored? || s.p == PDone(true) then [argument] else []
  }

  /** What was read from slots is what the calls handed out, in order. */
  predicate DrainedInto(s: State, popped: seq<int>) {
    Drained(s.tr) == popped + if s.c.CRead? || (s.c.CDone? && s.c.ok) then [s.c.x] else []
  }

  lemma FilledGrows(tr: seq<Event>, e: Event)
    ensures Filled(tr + [e]) == Filled(tr) + if e.SlotWrite? then [e.v] else []
    ensures Drained(tr + [e]) == Drained(tr) + if e.SlotRead? then [e.v] else []
  {
    assert (tr + [e])[..|tr|] == tr;
  }

  lemma ProducerFills(s: State, a: Action, pushed: seq<int>, argument: int)
    requires s.size > 0 && ProducerCan(s, a) && FilledWith(s, pushed, argument) && !StepProducer(s, a).fault
    ensures FilledWith(StepProducer(s, a),
                       if s.p == PDone(true) then pushed + [argument] else pushed,
                       if s.p.PIdle? then a.v else argument)
  {
    var s' := StepProducer(s, a);
    if s'.tr != s.tr {
      FilledGrows(s.tr, s'.tr[|s.tr|]);
    }
  }

  lemma ProducerDrainsNothing(s: State, a: Action, popped: seq<int>)
    requires s.size > 0 && ProducerCan(s, a) && DrainedInto(s, popped)
    ensures DrainedInto(StepProducer(s, a), popped)
  {
    var s' := StepProducer(s, a);
    assert s'.c == s.c;
    assert s'.tr == s.tr || (|s'.tr| == |s.tr| + 1 && s'.tr == s.tr + [s'.tr[|s.tr|]] && !s'.tr[|s.tr|].SlotRead?);
    if s'.tr != s.tr {
      FilledGrows(s.tr, s'.tr[|s.tr|]);
    }
  }

  lemma ConsumerFillsNothing(s: State, a: Action, pushed: seq<int>, argument: int)
    requires s.size > 0 && ConsumerCan(s, a) && FilledWith(s, pushed, argument)
    ensures FilledWith(StepConsumer(s, a), pushed, argument)
  {
    var s' := StepConsumer(s, a);
    if s'.tr != s.tr {
      FilledGrows(s.tr, s'.tr[|s.tr|]);
    }
  }

  lemma ConsumerDrains(s: State, a: Action, popped: seq<int>)
    requires s.size > 0 && ConsumerCan(s, a) && DrainedInto(s, popped) && !StepConsumer(s, a).fault
    ensures DrainedInto(StepConsumer(s, a), if s.c.CDone? && s.c.ok then popped + [s.c.x] else popped)
  {
    var s' := StepConsumer(s, a);
    if s'.tr != s.tr {
      FilledGrows(s.tr, s'.tr[|s.tr|]);
    }
  }

  lemma StepFillsAndDrains(s: State, a: Action, s': State, pushed: seq<int>, popped: seq<int>, argument: int)
    requires Enabled(s, a) && s' == Step(s, a) && !s'.fault
    requires FilledWith(s, pushed, argument) && DrainedInto(s, popped)
    ensures FilledWith(s',
                       if a.side == Producer && s.p == PDone(true) then pushed + [argument] else pushed,
                       if a.side == Producer && s.p.PIdle? then a.v else argument)
    ensures DrainedInto(s', if a.side == Consumer && s.c.CDone? && s.c.ok then popped + [s.c.x] else popped)
  {
    if a.side == Producer {
      ProducerFills(s, a, pushed, argument);
      ProducerDrainsNothing(s, a, popped);
    } else {
      ConsumerFillsNothing(s, a, pushed, argument);
      ConsumerDrains(s, a, popped);
    }
  }

  /** In every execution the slots hold, in order, the arguments of the successful calls of `try_push`,
      with the call under way at the end once it has filled its slot; and what was read from slots is
      what the successful calls of `try_pop` returned, with the call under way likewise. */
  lemma {:induction false} CallsFillAndDrain(ss: seq<State>, acts: seq<Action>, size: nat, n: nat)
    requires IsRun(ss, acts, size) && n < |ss|
    ensures FilledWith(ss[n], Pushed(ss, acts, n), Argument(ss, acts, n))
    ensures DrainedInto(ss[n], Popped(ss, acts, n))
  {
    if n == 0 {
      NoAccesses(Initial(size).tr);
    } else {
      CallsFillAndDrain(ss, acts, size, n - 1);
      assert !ss[n].fault by {
        RunInv(ss, acts, size, n);
      }
      StepFillsAndDrains(ss[n - 1], acts[n - 1], ss[n],
                         Pushed(ss, acts, n - 1), Popped(ss, acts, n - 1), Argument(ss, acts, n - 1));
    }
  }

  /** What one more call has published, if the producer is about to return from it. */
  function Returning(ss: seq<State>, acts: seq<Action>, n: nat): seq<int>
    requires n <= |acts| < |ss|
  {
    if ss[n].p == PDone(true) then [Argument(ss, acts, n)] else []
  }

  lemma DrainedArePublished(s: State)
    requires Inv(s)
    ensures |s.book.rd| <= Pushes(s.book) && |s.book.wr| == Pushes(s.book) + if s.p.PStored? then 1 else 0
  {
  }

  /** In every execution, whatever stale values are loaded, the values returned by successful calls of
      `try_pop` are a prefix of the arguments of successful calls of `try_push`: the k-th call returns
      the k-th argument. */
  lemma AnswersArePrefixOfArguments(ss: seq<State>, acts: seq<Action>, size: nat, n: nat)
    requires IsRun(ss, acts, size) && n < |ss|
    ensures Popped(ss, acts, n) <= Pushed(ss, acts, n) + Returning(ss, acts, n)
    ensures |Pushed(ss, acts, n)| - |Popped(ss, acts, n)| <= size + 1
  {
    CallsFillAndDrain(ss, acts, size, n);
    PopsArePrefixOfPushes(ss, acts, size, n);
    StaysInBuffer(ss, acts, size, n);
    RunInv(ss, acts, size, n);
    RunTallies(ss, acts, size, n);
    DrainedArePublished(ss[n]);
    var arguments := Pushed(ss, acts, n) + Returning(ss, acts, n);
    assert arguments <= Filled(ss[n].tr);
    assert Popped(ss, acts, n) <= Drained(ss[n].tr) <= Filled(ss[n].tr);
  }

  // ----- refusals -----

  /** The store at `from` is the newest of its location. */
  predicate Newest(tr: seq<Event>, from: int) {
    && 0 <= from < |tr|
    && forall i :: from < i < |tr| ==>
         !(tr[i].StoreWrite? && tr[from].StoreWrite?) && !(tr[i].StoreRead? && tr[from].StoreRead?)
  }

  /** How many pops have been published: the slots emptied, but for one not given back yet. */
  function GivenBack(s: State): int {
    |Drained(s.tr)| - if s.c.CRead? then 1 else 0
  }

  /** How many pushes have been published. */
  function Published(s: State): int {
    |Filled(s.tr)| - if s.p.PStored? then 1 else 0
  }

  lemma TalliesCount(s: State)
    requires Inv(s) && Tallies(s.tr, s.book)
    ensures Published(s) == Pushes(s.book) && GivenBack(s) == Pops(s.book)
  {
  }

  lemma NewestStores(s: State, from: int)
    requires Inv(s) && Newest(s.tr, from)
    ensures s.tr[from].StoreRead? ==> s.tr[from].val == Pops(s.book)
    ensures s.tr[from].StoreWrite? ==> s.tr[from].val == Pushes(s.book)
  {
    var b := s.book;
    assert IsStoreRead(s.tr, b.sr[Pops(b)], Pops(b)) && IsStoreWrite(s.tr, b.sw[Pushes(b)], Pushes(b));
  }

  /** A push is refused exactly if the read index it loaded is at least the size behind its tail; so a
      refusal is conservative, and with the newest index loaded it is exact: the buffer is full. A push
      that is not refused goes on to fill its slot, publish it and return true. */
  lemma RefusedPush(ss: seq<State>, acts: seq<Action>, size: nat, n: nat)
    requires IsRun(ss, acts, size) && n < |acts| && acts[n].side == Producer && ss[n].p.PLoaded?
    ensures var s, s', from := ss[n], ss[n + 1], acts[n].from;
      && 0 <= from < |s.tr| && s.tr[from].StoreRead?
      && s.p.tail == Published(s)
      && s'.p == (if Published(s) - s.tr[from].val >= size then PDone(false)
                  else PRoom(s.p.v, s.p.tail, s.p.tail + 1, |s.tr|))
      && (Newest(s.tr, from) ==> s.tr[from].val == GivenBack(s))
  {
    RunInv(ss, acts, size, n);
    RunTallies(ss, acts, size, n);
    assert Enabled(ss[n], acts[n]);
    TalliesCount(ss[n]);
    if Newest(ss[n].tr, acts[n].from) {
      NewestStores(ss[n], acts[n].from);
    }
  }

  /** A pop is refused exactly if the write index it loaded is its head; with the newest index loaded,
      exactly if nothing is published that was not popped. */
  lemma RefusedPop(ss: seq<State>, acts: seq<Action>, size: nat, n: nat)
    requires IsRun(ss, acts, size) && n < |acts| && acts[n].side == Consumer && ss[n].c.CLoaded?
    ensures var s, s', from := ss[n], ss[n + 1], acts[n].from;
      && 0 <= from < |s.tr| && s.tr[from].StoreWrite?
      && s.c.head == GivenBack(s)
      && s'.c == (if s.tr[from].val == GivenBack(s) then CDone(false, 0) else CSome(s.c.head, |s.tr|))
      && (Newest(s.tr, from) ==> s.tr[from].val == Published(s))
  {
    RunInv(ss, acts, size, n);
    RunTallies(ss, acts, size, n);
    assert Enabled(ss[n], acts[n]);
    TalliesCount(ss[n]);
    if Newest(ss[n].tr, acts[n].from) {
      NewestStores(ss[n], acts[n].from);
    }
  }

  /** A push that saw room fills and publishes its slot in two steps of its own, and returns true. */
  lemma RoomIsUsed(s: State, a: Action, b: Action)
    requires Inv(s) && s.p.PRoom?
    ensures var s' := StepProducer(StepProducer(s, a), b);
      && s'.p == PDone(true) && Published(s') == Published(s) + 1
  {
    FilledGrows(s.tr, SlotWrite(s.p.tail, s.p.v));
    var s1 := FillSlot(s);
    FilledGrows(s1.tr, StepProducer(s1, b).tr[|s1.tr|]);
  }

  /** A pop that saw data empties its slot and gives it back in two steps of its own, and returns true
      with the value it read. */
  lemma DataIsUsed(s: State, a: Action, b: Action)
    requires Inv(s) && s.c.CSome? && ConsumerCan(s, a)
    ensures ConsumerCan(StepConsumer(s, a), b)
    ensures var s' := StepConsumer(StepConsumer(s, a), b);
      && s'.c == CDone(true, SlotValue(s.tr, a.from, a.junk)) && GivenBack(s') == GivenBack(s) + 1
  {
    var x := SlotValue(s.tr, a.from, a.junk);
    FilledGrows(s.tr, SlotRead(s.c.head, a.from, x));
    var s1 := DrainSlot(s, a.from, a.junk);
    FilledGrows(s1.tr, StepConsumer(s1, b).tr[|s1.tr|]);
  }
}
