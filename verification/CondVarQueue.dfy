/** The coarse-grained MPMC queue: one mutex and one condition variable, per sections 30.4 and 30.5
    of ISO/IEC 14882:2011. A waiter releases the mutex and falls asleep in one step; `notify_one`
    wakes one sleeper if there is one and is lost otherwise; a woken waiter takes the mutex again and
    repeats its test. One step per statement, any number of threads, each with its own program. */
module CondVarQueue {
  import opened FifoHistory

  datatype Mutex = Free | Held(t: Tid)

  /** The statement a thread is about to execute. `woken` marks a consumer that a notification or a
      spurious wake-up has roused and that has not removed its value yet. */
  datatype Pc =
    | Ready                            // between calls
    | PushCalled(v: int)               // lock
    | PushLocked(v: int)               // m_queue.push(val)
    | PushQueued(v: int)               // unlock
    | PushNotify(v: int)               // notify_one
    | PushDone(v: int)                 // return
    | PopCalled                        // lock
    | PopTest(woken: bool)             // is the queue empty?
    | PopAsleep                        // blocked in wait, mutex released
    | PopWoken                         // lock again
    | PopFront(woken: bool)            // m_queue.front()
    | PopTake(x: int, woken: bool)     // m_queue.pop()
    | PopTaken(x: int)                 // unlock
    | PopDone(x: int)                  // return

  /** The result of one statement: the queue, the mutex, the next statement and the events logged. */
  datatype Outcome = Outcome(q: seq<int>, lock: Mutex, pc: Pc, log: seq<Event>)

  /** What a thread can do on its own; a sleeper can do nothing. */
  predicate CanRun(lock: Mutex, pc: Pc) {
    match pc
    case Ready => false
    case PushCalled(_) => lock == Free
    case PopCalled => lock == Free
    case PopWoken => lock == Free
    case PopAsleep => false
    case _ => true
  }

  function Exec(q: seq<int>, lock: Mutex, t: Tid, pc: Pc): Outcome
    requires CanRun(lock, pc)
  {
    match pc
    case PushCalled(v) => Outcome(q, Held(t), PushLocked(v), [])
    case PushLocked(v) => Outcome(q + [v], lock, PushQueued(v), [Lin(t, Put(v), Ok)])
    case PushQueued(v) => Outcome(q, Free, PushNotify(v), [])
    case PushNotify(v) => Outcome(q, lock, PushDone(v), [])
    case PushDone(v) => Outcome(q, lock, Ready, [Ret(t, Ok)])
    case PopCalled => Outcome(q, Held(t), PopTest(false), [])
    case PopTest(woken) =>
      if q == [] then Outcome(q, Free, PopAsleep, []) else Outcome(q, lock, PopFront(woken), [])
    case PopWoken => Outcome(q, Held(t), PopTest(true), [])
    case PopFront(woken) => Outcome(q, lock, PopTake(if q == [] then 0 else q[0], woken), [])
    case PopTake(x, _) => Outcome(if q == [] then q else q[1..], lock, PopTaken(x), [Lin(t, Take, Got(x))])
    case PopTaken(x) => Outcome(q, Free, PopDone(x), [])
    case PopDone(x) => Outcome(q, lock, Ready, [Ret(t, Got(x))])
  }

  datatype State = State(q: seq<int>, lock: Mutex, pcs: seq<Pc>, todo: seq<seq<Op>>, hist: seq<Event>)

  /** The scheduler runs a thread, choosing whom a notification wakes; or a sleeper wakes for no
      reason. */
  datatype Action = Go(t: Tid, wakes: Tid) | Spurious(t: Tid)

  ghost predicate Initial(s: State) {
    && s.q == [] && s.lock == Free && |s.pcs| == |s.todo|
    && (forall t :: 0 <= t < |s.pcs| ==> s.pcs[t] == Ready)
    && s.hist == []
  }

  predicate Asleep(s: State, t: Tid) {
    t < |s.pcs| && s.pcs[t].PopAsleep?
  }

  predicate SomeAsleep(s: State) {
    exists t :: 0 <= t < |s.pcs| && s.pcs[t].PopAsleep?
  }

  predicate Enabled(s: State, a: Action) {
    && a.t < |s.pcs| == |s.todo|
    && match a
       case Go(t, wakes) =>
         if s.pcs[t] == Ready then s.todo[t] != []
         else CanRun(s.lock, s.pcs[t]) && (s.pcs[t].PushNotify? && SomeAsleep(s) ==> Asleep(s, wakes))
       case Spurious(t) => s.pcs[t].PopAsleep?
  }

  function FirstStatement(op: Op): Pc {
    match op case Put(v) => PushCalled(v) case Take => PopCalled
  }

  /** `notify_one` wakes `u` if it is asleep, and otherwise nobody. */
  function Wake(pcs: seq<Pc>, u: Tid): seq<Pc> {
    if u < |pcs| && pcs[u].PopAsleep? then pcs[u := PopWoken] else pcs
  }

  function Step(s: State, a: Action): State
    requires Enabled(s, a)
  {
    match a
    case Spurious(t) => s.(pcs := Wake(s.pcs, t))
    case Go(t, wakes) =>
      if s.pcs[t] == Ready then
        var op := s.todo[t][0];
        s.(pcs := s.pcs[t := FirstStatement(op)], todo := s.todo[t := s.todo[t][1..]], hist := s.hist + [Call(t, op)])
      else
        var o := Exec(s.q, s.lock, t, s.pcs[t]);
        var pcs := if s.pcs[t].PushNotify? then Wake(s.pcs, wakes) else s.pcs;
        s.(q := o.q, lock := o.lock, pcs := pcs[t := o.pc], hist := s.hist + o.log)
  }

  ghost predicate IsRun(ss: seq<State>, acts: seq<Action>) {
    && |ss| == |acts| + 1
    && Initial(ss[0])
    && forall i {:trigger acts[i]} :: 0 <= i < |acts| ==> Enabled(ss[i], acts[i]) && ss[i + 1] == Step(ss[i], acts[i])
  }

  // ----- mutual exclusion and history -----

  predicate Holds(pc: Pc) {
    pc.PushLocked? || pc.PushQueued? || pc.PopTest? || pc.PopFront? || pc.PopTake? || pc.PopTaken?
  }

  predicate ThreadInv(q: seq<int>, lock: Mutex, t: Tid, pc: Pc) {
    && (Holds(pc) <==> lock == Held(t))
    && (pc.PopFront? ==> q != [])
    && (pc.PopTake? ==> q != [] && pc.x == q[0])
  }

  function PhaseAt(pc: Pc): Phase {
    match pc
    case Ready => Idle
    case PushCalled(v) => Pending(Put(v))
    case PushLocked(v) => Pending(Put(v))
    case PushQueued(v) => Committed(Put(v), Ok)
    case PushNotify(v) => Committed(Put(v), Ok)
    case PushDone(v) => Committed(Put(v), Ok)
    case PopTaken(x) => Committed(Take, Got(x))
    case PopDone(x) => Committed(Take, Got(x))
    case _ => Pending(Take)
  }

  ghost predicate Inv(s: State) {
    && |s.pcs| == |s.todo|
    && (s.lock.Held? ==> s.lock.t < |s.pcs|)
    && (forall t :: 0 <= t < |s.pcs| ==> ThreadInv(s.q, s.lock, t, s.pcs[t]))
  }

  ghost predicate HistoryInv(s: State) {
    && Accepted(Unbounded, s.hist) && QueueOf(Unbounded, s.hist) == s.q
    && (forall t :: 0 <= t < |s.pcs| ==> PhaseOf(s.hist, t) == PhaseAt(s.pcs[t]))
  }

  lemma ExecOwn(q: seq<int>, lock: Mutex, t: Tid, pc: Pc)
    requires ThreadInv(q, lock, t, pc) && CanRun(lock, pc)
    ensures var o := Exec(q, lock, t, pc); ThreadInv(o.q, o.lock, t, o.pc)
  {
  }

  lemma ExecOther(q: seq<int>, lock: Mutex, t: Tid, pc: Pc, u: Tid, other: Pc)
    requires ThreadInv(q, lock, t, pc) && CanRun(lock, pc)
    requires u != t && ThreadInv(q, lock, u, other)
    ensures var o := Exec(q, lock, t, pc); ThreadInv(o.q, o.lock, u, other)
  {
  }

  lemma StepInv(s: State, a: Action)
    requires Inv(s) && Enabled(s, a)
    ensures Inv(Step(s, a))
  {
    var s', t := Step(s, a), a.t;
    assert ThreadInv(s.q, s.lock, t, s.pcs[t]);
    forall u | 0 <= u < |s.pcs|
      ensures ThreadInv(s'.q, s'.lock, u, s'.pcs[u])
    {
      assert ThreadInv(s.q, s.lock, u, s.pcs[u]);
      if a.Go? && s.pcs[t] != Ready {
        ExecOwn(s.q, s.lock, t, s.pcs[t]);
        if u != t {
          ExecOther(s.q, s.lock, t, s.pcs[t], u, s.pcs[u]);
          if s.pcs[u].PopAsleep? {
            ExecOther(s.q, s.lock, t, s.pcs[t], u, PopWoken);
          }
        }
      }
    }
  }

  /** Each statement logs what the sequential queue would answer, and changes the queue as it would. */
  lemma ExecFaithful(q: seq<int>, lock: Mutex, t: Tid, pc: Pc)
    requires ThreadInv(q, lock, t, pc) && CanRun(lock, pc)
    ensures var o := Exec(q, lock, t, pc); Announced(Unbounded, t, o.log, q, PhaseAt(pc), o.q, PhaseAt(o.pc))
  {
  }

  lemma StepHistory(s: State, a: Action)
    requires Inv(s) && HistoryInv(s) && Enabled(s, a)
    ensures HistoryInv(Step(s, a))
  {
    var t := a.t;
    assert ThreadInv(s.q, s.lock, t, s.pcs[t]);
    if a.Go? {
      if s.pcs[t] == Ready {
        Extend(Unbounded, s.hist, Call(t, s.todo[t][0]));
      } else {
        ExecFaithful(s.q, s.lock, t, s.pcs[t]);
        var o := Exec(s.q, s.lock, t, s.pcs[t]);
        LogKeeps(Unbounded, t, s.hist, o.log, o.q, PhaseAt(o.pc));
      }
    }
  }
}
