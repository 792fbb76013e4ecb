/** Histories of concurrent queue operations, and what it means for one to be linearizable
    to a FIFO queue.

    A history records three events per operation: its call, the step at which it takes effect,
    and its return. It is `Accepted` when every thread runs its operations as
    call - effect - return and when the effects, read in order, are a legal run of a sequential
    FIFO queue. Forgetting the effects leaves what the callers see; a history that callers see is
    linearizable when effects can be put back so that the result is accepted. */
module FifoHistory {

  type Tid = nat

  datatype Op = Put(v: int) | Take

  /** `Ok` and `Full` answer a `Put`; `Got` and `Empty` answer a `Take`. */
  datatype Res = Ok | Full | Got(v: int) | Empty

  datatype Event =
    | Call(t: Tid, op: Op)
    | Lin(t: Tid, op: Op, res: Res)
    | Ret(t: Tid, res: Res)

  datatype Capacity = Unbounded | Bounded(n: nat)

  /** What a thread is doing: nothing, an operation that has not taken effect, or one that has. */
  datatype Phase = Idle | Pending(op: Op) | Committed(op: Op, res: Res)

  // ----- the sequential queue -----

  predicate HasRoom(cap: Capacity, q: seq<int>) {
    cap.Bounded? ==> |q| < cap.n
  }

  function Answer(cap: Capacity, q: seq<int>, op: Op): Res {
    match op
    case Put(_) => if HasRoom(cap, q) then Ok else Full
    case Take => if q == [] then Empty else Got(q[0])
  }

  function After(cap: Capacity, q: seq<int>, op: Op): seq<int> {
    match op
    case Put(v) => if HasRoom(cap, q) then q + [v] else q
    case Take => if q == [] then q else q[1..]
  }

  // ----- reading a history -----

  function Front(h: seq<Event>): seq<Event>
    requires h != []
  {
    h[..|h| - 1]
  }

  function Last(h: seq<Event>): Event
    requires h != []
  {
    h[|h| - 1]
  }

  function PhaseOf(h: seq<Event>, t: Tid): Phase {
    if h == [] then Idle
    else if Last(h).t != t then PhaseOf(Front(h), t)
    else match Last(h)
      case Call(_, op) => Pending(op)
      case Lin(_, op, res) => Committed(op, res)
      case Ret(_, _) => Idle
  }

  function QueueOf(cap: Capacity, h: seq<Event>): seq<int> {
    if h == [] then []
    else if Last(h).Lin? then After(cap, QueueOf(cap, Front(h)), Last(h).op)
    else QueueOf(cap, Front(h))
  }

  /** The event may come next after `h`. */
  predicate Allowed(cap: Capacity, h: seq<Event>, e: Event) {
    match e
    case Call(t, _) => PhaseOf(h, t) == Idle
    case Lin(t, op, res) => PhaseOf(h, t) == Pending(op) && res == Answer(cap, QueueOf(cap, h), op)
    case Ret(t, res) => PhaseOf(h, t).Committed? && PhaseOf(h, t).res == res
  }

  predicate Accepted(cap: Capacity, h: seq<Event>) {
    h == [] || (Accepted(cap, Front(h)) && Allowed(cap, Front(h), Last(h)))
  }

  /** What callers see of a history: its calls and returns. */
  function Visible(h: seq<Event>): seq<Event> {
    if h == [] then []
    else Visible(Front(h)) + if Last(h).Lin? then [] else [Last(h)]
  }

  ghost predicate Linearizable(cap: Capacity, visible: seq<Event>) {
    exists h :: Accepted(cap, h) && Visible(h) == visible
  }

  /** The effective puts of a history, each with the thread that made it. */
  function Puts(h: seq<Event>): seq<(Tid, int)> {
    if h == [] then []
    else
      var e := Last(h);
      Puts(Front(h)) + if e.Lin? && e.op.Put? && e.res == Ok then [(e.t, e.op.v)] else []
  }

  /** The values handed out by the effective takes of a history. */
  function Takes(h: seq<Event>): seq<int> {
    if h == [] then []
    else Takes(Front(h)) + if Last(h).Lin? && Last(h).res.Got? then [Last(h).res.v] else []
  }

  /** The values a thread has asked to put, in the order of its calls. */
  function CalledPuts(h: seq<Event>, t: Tid): seq<int> {
    if h == [] then []
    else CalledPuts(Front(h), t) + if Last(h).Call? && Last(h).t == t && Last(h).op.Put? then [Last(h).op.v] else []
  }

  /** The operations a thread has called, and those of them that have taken effect. */
  function Calls(h: seq<Event>, t: Tid): seq<Op> {
    if h == [] then []
    else Calls(Front(h), t) + if Last(h).Call? && Last(h).t == t then [Last(h).op] else []
  }

  function Effects(h: seq<Event>, t: Tid): seq<Op> {
    if h == [] then []
    else Effects(Front(h), t) + if Last(h).Lin? && Last(h).t == t then [Last(h).op] else []
  }

  function Values(ps: seq<(Tid, int)>): seq<int> {
    seq(|ps|, i requires 0 <= i < |ps| => ps[i].1)
  }

  /** The values of one thread among tagged values. */
  function Of(ps: seq<(Tid, int)>, t: Tid): seq<int> {
    if ps == [] then []
    else Of(ps[..|ps| - 1], t) + if ps[|ps| - 1].0 == t then [ps[|ps| - 1].1] else []
  }

  // ----- growing a history by one event -----

  lemma Extend(cap: Capacity, h: seq<Event>, e: Event)
    ensures Front(h + [e]) == h && Last(h + [e]) == e
    ensures Accepted(cap, h + [e]) <==> Accepted(cap, h) && Allowed(cap, h, e)
    ensures QueueOf(cap, h + [e]) == if e.Lin? then After(cap, QueueOf(cap, h), e.op) else QueueOf(cap, h)
    ensures forall t :: t != e.t ==> PhaseOf(h + [e], t) == PhaseOf(h, t)
    ensures PhaseOf(h + [e], e.t) ==
      match e case Call(_, op) => Pending(op) case Lin(_, op, res) => Committed(op, res) case Ret(_, _) => Idle
  {
    assert Front(h + [e]) == h;
  }

  lemma ExtendPuts(h: seq<Event>, e: Event)
    ensures Puts(h + [e]) == Puts(h) + if e.Lin? && e.op.Put? && e.res == Ok then [(e.t, e.op.v)] else []
  {
    assert Front(h + [e]) == h;
  }

  /** What a step of thread `t` logs is what the queue answers, or nothing; and it takes the queue and
      the thread's phase to where they should be. */
  predicate Announced(cap: Capacity, t: Tid, log: seq<Event>, q: seq<int>, ph: Phase, q': seq<int>, ph': Phase) {
    if log == [] then q' == q && ph' == ph
    else
      && |log| == 1 && log[0].t == t
      && match log[0]
         case Call(_, op) => ph == Idle && ph' == Pending(op) && q' == q
         case Lin(_, op, res) =>
           ph == Pending(op) && ph' == Committed(op, res) && res == Answer(cap, q, op) && q' == After(cap, q, op)
         case Ret(_, res) => ph.Committed? && ph.res == res && ph' == Idle && q' == q
  }

  lemma LogKeeps(cap: Capacity, t: Tid, h: seq<Event>, log: seq<Event>, q': seq<int>, ph': Phase)
    requires Accepted(cap, h) && Announced(cap, t, log, QueueOf(cap, h), PhaseOf(h, t), q', ph')
    ensures Accepted(cap, h + log) && QueueOf(cap, h + log) == q' && PhaseOf(h + log, t) == ph'
    ensures forall u :: u != t ==> PhaseOf(h + log, u) == PhaseOf(h, u)
  {
    if log == [] {
      assert h + log == h;
    } else {
      assert log == [log[0]];
      Extend(cap, h, log[0]);
    }
  }

  lemma ExtendCalls(h: seq<Event>, e: Event, t: Tid)
    ensures Calls(h + [e], t) == Calls(h, t) + if e.Call? && e.t == t then [e.op] else []
  {
    assert Front(h + [e]) == h;
  }

  lemma {:induction false} AcceptedPrefix(cap: Capacity, h: seq<Event>, n: nat)
    requires Accepted(cap, h) && n <= |h|
    ensures Accepted(cap, h[..n])
    decreases |h|
  {
    if n < |h| {
      AcceptedPrefix(cap, Front(h), n);
      assert Front(h)[..n] == h[..n];
    } else {
      assert h[..n] == h;
    }
  }

  // ----- what acceptance gives -----

  lemma AcceptedIsLinearizable(cap: Capacity, h: seq<Event>)
    requires Accepted(cap, h)
    ensures Linearizable(cap, Visible(h))
  {
  }

  /** Between the call at `c` and position `i`, thread `t` does nothing but take effect at `l`. */
  predicate Interval(h: seq<Event>, c: nat, l: nat, i: nat, t: Tid, op: Op, res: Res) {
    && c < l < i <= |h|
    && h[c] == Call(t, op)
    && h[l] == Lin(t, op, res)
    && forall k :: c < k < i && h[k].t == t ==> k == l
  }

  /** A thread that is committed took effect exactly once since its call. */
  lemma {:induction false} CommittedInterval(cap: Capacity, h: seq<Event>, t: Tid) returns (c: nat, l: nat)
    requires Accepted(cap, h) && PhaseOf(h, t).Committed?
    ensures Interval(h, c, l, |h|, t, PhaseOf(h, t).op, PhaseOf(h, t).res)
  {
    if Last(h).t != t {
      c, l := CommittedInterval(cap, Front(h), t);
    } else {
      c := PendingCall(cap, Front(h), t);
      l := |h| - 1;
    }
  }

  lemma {:induction false} PendingCall(cap: Capacity, h: seq<Event>, t: Tid) returns (c: nat)
    requires Accepted(cap, h) && PhaseOf(h, t).Pending?
    ensures c < |h| && h[c] == Call(t, PhaseOf(h, t).op)
    ensures forall k :: c < k < |h| ==> h[k].t != t
  {
    if Last(h).t != t {
      c := PendingCall(cap, Front(h), t);
    } else {
      c := |h| - 1;
    }
  }

  /** Every return is preceded by its own call and by exactly one effect between the two, with the
      same operation and the same answer. */
  lemma {:induction false} EffectWithinCall(cap: Capacity, h: seq<Event>, i: nat) returns (c: nat, l: nat, op: Op)
    requires Accepted(cap, h) && i < |h| && h[i].Ret?
    ensures Interval(h, c, l, i, h[i].t, op, h[i].res)
  {
    AcceptedPrefix(cap, h, i + 1);
    assert Front(h[..i + 1]) == h[..i];
    op := PhaseOf(h[..i], h[i].t).op;
    c, l := CommittedInterval(cap, h[..i], h[i].t);
    assert forall k :: 0 <= k < i ==> h[..i][k] == h[k];
  }

  /** Real-time order: an operation that returned before another was called took effect first. */
  lemma {:induction false} RealTimeOrder(cap: Capacity, h: seq<Event>, i: nat, j: nat, k: nat)
    returns (l: nat, m: nat)
    requires Accepted(cap, h)
    requires i < j < k < |h| && h[i].Ret? && h[j].Call? && h[k].Ret? && h[k].t == h[j].t
    requires forall n :: j < n < k && h[n].t == h[j].t ==> !h[n].Call? && !h[n].Ret?
    ensures l < i < j < m < k
    ensures h[l].Lin? && h[l].t == h[i].t && h[l].res == h[i].res
    ensures h[m] == Lin(h[j].t, h[j].op, h[k].res)
  {
    var c, op;
    c, l, op := EffectWithinCall(cap, h, i);
    var d, op';
    d, m, op' := EffectWithinCall(cap, h, k);
    assert d == j by {
      if d < j {
        assert false;
      }
    }
  }

  /** Conservation and order: what was put is what was taken followed by what is still queued. */
  lemma {:induction false} PutsAreTakesThenQueue(cap: Capacity, h: seq<Event>)
    requires Accepted(cap, h)
    ensures Values(Puts(h)) == Takes(h) + QueueOf(cap, h)
  {
    if h != [] {
      var g := Front(h);
      PutsAreTakesThenQueue(cap, g);
      var q := QueueOf(cap, g);
      assert Puts(g) + [] == Puts(g) && Takes(g) + [] == Takes(g);
      if Last(h).Lin? {
        match Last(h).op {
          case Put(v) =>
            if HasRoom(cap, q) {
              assert Values(Puts(h)) == Values(Puts(g)) + [v];
            }
          case Take =>
            if q != [] {
              assert q == [q[0]] + q[1..];
              assert Takes(g) + q == Takes(g) + [q[0]] + q[1..];
              assert Values(Puts(h)) == Values(Puts(g));
            }
        }
      }
    }
  }

  lemma {:induction false} WithinCapacity(n: nat, h: seq<Event>)
    ensures |QueueOf(Bounded(n), h)| <= n
  {
    if h != [] {
      WithinCapacity(n, Front(h));
    }
  }

  /** The takes of a history are a prefix of its puts: nothing is lost, duplicated or reordered. */
  lemma {:induction false} TakesArePrefixOfPuts(cap: Capacity, h: seq<Event>)
    requires Accepted(cap, h)
    ensures Takes(h) <= Values(Puts(h))
    ensures |Takes(h)| <= |Puts(h)|
    ensures cap.Bounded? ==> |Puts(h)| - |Takes(h)| <= cap.n
  {
    PutsAreTakesThenQueue(cap, h);
    if cap.Bounded? {
      WithinCapacity(cap.n, h);
    }
  }

  /** An unbounded queue accepts a thread's values in the order of its calls; only a call that has
      not taken effect yet is outstanding. */
  lemma {:induction false} PutsInProgramOrder(h: seq<Event>, t: Tid)
    requires Accepted(Unbounded, h)
    ensures CalledPuts(h, t) ==
      Of(Puts(h), t) + if PhaseOf(h, t).Pending? && PhaseOf(h, t).op.Put? then [PhaseOf(h, t).op.v] else []
  {
    if h != [] {
      PutsInProgramOrder(Front(h), t);
      var e := Last(h);
      var g := Front(h);
      if e.Lin? && e.op.Put? {
        assert Puts(h) == Puts(g) + [(e.t, e.op.v)];
        assert Puts(h)[..|Puts(h)| - 1] == Puts(g);
      } else {
        assert Puts(h) == Puts(g);
      }
    }
  }

  lemma VisibleEvent(e: Event)
    ensures Visible([e]) == if e.Lin? then [] else [e]
  {
    assert Front([e]) == [];
  }

  /** With `VisibleEvent`: callers see every call and every return, in order, and nothing else. */
  lemma {:induction false} VisibleParts(g: seq<Event>, h: seq<Event>)
    ensures Visible(g + h) == Visible(g) + Visible(h)
    decreases |h|
  {
    if h == [] {
      assert g + h == g;
    } else {
      VisibleParts(g, Front(h));
      assert Front(g + h) == g + Front(h) && Last(g + h) == Last(h);
    }
  }

  /** Each call takes effect once, in the order of the calls; only the last may not have done so yet. */
  lemma {:induction false} EffectsFollowCalls(cap: Capacity, h: seq<Event>, t: Tid)
    requires Accepted(cap, h)
    ensures Calls(h, t) == Effects(h, t) + if PhaseOf(h, t).Pending? then [PhaseOf(h, t).op] else []
  {
    if h != [] {
      EffectsFollowCalls(cap, Front(h), t);
    }
  }

  lemma {:induction false} OfPrefix(ps: seq<(Tid, int)>, n: nat, t: Tid)
    requires n <= |ps|
    ensures Of(ps[..n], t) <= Of(ps, t)
    decreases |ps|
  {
    if n < |ps| {
      OfPrefix(ps[..|ps| - 1], n, t);
      assert ps[..|ps| - 1][..n] == ps[..n];
    } else {
      assert ps[..n] == ps;
    }
  }

  /** The values that have left an unbounded queue, restricted to one producer, are the first of
      the values that producer asked to put, in the order it asked. */
  lemma {:induction false} LeaveInProgramOrder(h: seq<Event>, t: Tid)
    requires Accepted(Unbounded, h)
    ensures |Takes(h)| <= |Puts(h)| && Takes(h) == Values(Puts(h)[..|Takes(h)|])
    ensures Of(Puts(h)[..|Takes(h)|], t) <= CalledPuts(h, t)
  {
    PutsAreTakesThenQueue(Unbounded, h);
    var n := |Takes(h)|;
    assert |Values(Puts(h))| == |Puts(h)|;
    assert forall i :: 0 <= i < n ==> Takes(h)[i] == Values(Puts(h))[i];
    OfPrefix(Puts(h), n, t);
    PutsInProgramOrder(h, t);
  }

  predicate Succeeds(e: Event) {
    e.Lin? && (e.res == Ok || e.res.Got?)
  }

  /** Only effects that succeed change the queue. */
  lemma {:induction false} FailuresKeepQueue(cap: Capacity, h: seq<Event>, n: nat)
    requires Accepted(cap, h) && n <= |h|
    requires forall k :: n <= k < |h| ==> !Succeeds(h[k])
    ensures QueueOf(cap, h) == QueueOf(cap, h[..n])
    decreases |h|
  {
    if n < |h| {
      FailuresKeepQueue(cap, Front(h), n);
      assert Front(h)[..n] == h[..n];
    } else {
      assert h[..n] == h;
    }
  }

  predicate Stalls(e: Event) {
    e.Lin? && (e.res == Full || e.res == Empty)
  }

  /** Over an unchanged queue that can hold something, all refusals are alike. */
  lemma {:induction false} SameStall(n: nat, h: seq<Event>, i: nat, j: nat)
    requires Accepted(Bounded(n), h) && n > 0
    requires i < j < |h| && Stalls(h[i]) && Stalls(h[j])
    requires forall k :: i < k < j ==> !Succeeds(h[k])
    ensures h[i].res == h[j].res
  {
    AcceptedPrefix(Bounded(n), h, j + 1);
    AcceptedPrefix(Bounded(n), h, i + 1);
    assert Front(h[..i + 1]) == h[..i] && Front(h[..j + 1]) == h[..j];
    FailuresKeepQueue(Bounded(n), h[..j], i);
    assert h[..j][..i] == h[..i];
    WithinCapacity(n, h[..i]);
  }

  /** A refused put and a fruitless take never face each other over an unchanged queue: between
      them, in either order, some operation succeeds. So two spinning threads cannot both be stuck. */
  lemma {:induction false} StallsAreSeparated(n: nat, h: seq<Event>, i: nat, j: nat) returns (k: nat)
    requires Accepted(Bounded(n), h) && n > 0
    requires i < j < |h| && Stalls(h[i]) && Stalls(h[j]) && h[i].res != h[j].res
    ensures i < k < j && Succeeds(h[k])
  {
    if k' :| i < k' < j && Succeeds(h[k']) {
      k := k';
    } else {
      SameStall(n, h, i, j);
      assert false;
    }
  }
}
