/** No wake-up is lost, no workload with enough pushes deadlocks, and without spurious wake-ups no
    run is longer than its workload allows. All are counting arguments over all threads. */
module CondVarTheorems {
  import opened FifoHistory
  import opened CondVarQueue
  import opened Sums

  // ----- quantities summed over the threads -----

  /** What is counted: producers that have pushed and not notified; consumers roused and not served;
      operations that have not taken effect; and work left. */
  datatype Quantity = Notifying | Roused | PutsLeft | TakesLeft | Work

  function CountPuts(ops: seq<Op>): nat {
    if ops == [] then 0 else (if ops[0].Put? then 1 else 0) + CountPuts(ops[1..])
  }

  function CountTakes(ops: seq<Op>): nat {
    if ops == [] then 0 else (if ops[0].Take? then 1 else 0) + CountTakes(ops[1..])
  }

  function Left(pc: Pc): nat {
    match pc
    case Ready => 0
    case PushCalled(_) => 7
    case PushLocked(_) => 6
    case PushQueued(_) => 5
    case PushNotify(_) => 4
    case PushDone(_) => 1
    case PopCalled => 6
    case PopTest(_) => 5
    case PopAsleep => 4
    case PopWoken => 6
    case PopFront(_) => 4
    case PopTake(_, _) => 3
    case PopTaken(_) => 2
    case PopDone(_) => 1
  }

  function Share(k: Quantity, pc: Pc, ops: seq<Op>): nat {
    match k
    case Notifying => if pc.PushQueued? || pc.PushNotify? then 1 else 0
    case Roused =>
      if pc.PopWoken? || ((pc.PopTest? || pc.PopFront? || pc.PopTake?) && pc.woken) then 1 else 0
    case PutsLeft => CountPuts(ops) + if pc.PushCalled? || pc.PushLocked? then 1 else 0
    case TakesLeft => CountTakes(ops) + if PhaseAt(pc) == Pending(Take) then 1 else 0
    case Work => 8 * |ops| + Left(pc)
  }

  function Shares(k: Quantity, s: State): seq<nat>
    requires |s.pcs| == |s.todo|
  {
    seq(|s.pcs|, t requires 0 <= t < |s.pcs| => Share(k, s.pcs[t], s.todo[t]))
  }

  function Total(k: Quantity, s: State): nat
    requires |s.pcs| == |s.todo|
  {
    Sum(Shares(k, s))
  }

  lemma TotalUpdate(k: Quantity, s: State, s': State, t: Tid)
    requires t < |s.pcs| == |s.todo| == |s'.pcs| == |s'.todo|
    requires s'.pcs == s.pcs[t := s'.pcs[t]] && s'.todo == s.todo[t := s'.todo[t]]
    ensures Total(k, s') + Share(k, s.pcs[t], s.todo[t]) == Total(k, s) + Share(k, s'.pcs[t], s'.todo[t])
  {
    assert Shares(k, s') == Shares(k, s)[t := Share(k, s'.pcs[t], s'.todo[t])];
    SumUpdate(Shares(k, s), t, Share(k, s'.pcs[t], s'.todo[t]));
  }

  /** The step wakes a sleeper. */
  predicate Wakes(s: State, a: Action) {
    && a.t < |s.pcs|
    && match a
       case Go(t, u) => s.pcs[t].PushNotify? && Asleep(s, u)
       case Spurious(t) => true
  }

  /** How a step changes a quantity: by the change of the thread that runs, and by what waking a
      sleeper is worth. */
  lemma StepTotal(k: Quantity, s: State, a: Action)
    requires Inv(s) && Enabled(s, a)
    ensures |Step(s, a).pcs| == |Step(s, a).todo| == |s.pcs|
    ensures Total(k, Step(s, a)) as int - Total(k, s) as int ==
      (if Wakes(s, a) then (match k case Roused => 1 case Work => 2 case _ => 0) else 0)
      + (if a.Go?
         then Share(k, Step(s, a).pcs[a.t], Step(s, a).todo[a.t]) as int - Share(k, s.pcs[a.t], s.todo[a.t]) as int
         else 0)
  {
    var s', t := Step(s, a), a.t;
    match a {
      case Spurious(_) => TotalUpdate(k, s, s', t);
      case Go(_, u) =>
        if Wakes(s, a) {
          var mid := s.(pcs := Wake(s.pcs, u));
          TotalUpdate(k, s, mid, u);
          TotalUpdate(k, mid, s', t);
        } else {
          TotalUpdate(k, s, s', t);
        }
    }
  }

  // ----- no lost wake-up -----

  /** If anybody sleeps, every queued value is spoken for: by a notification still to come or by a
      consumer already roused. */
  ghost predicate Covered(s: State)
    requires |s.pcs| == |s.todo|
  {
    SomeAsleep(s) ==> |s.q| <= Total(Notifying, s) + Total(Roused, s)
  }

  lemma StepCovered(s: State, a: Action)
    requires Inv(s) && Covered(s) && Enabled(s, a)
    ensures |Step(s, a).pcs| == |Step(s, a).todo| && Covered(Step(s, a))
  {
    var s', t := Step(s, a), a.t;
    StepTotal(Notifying, s, a);
    StepTotal(Roused, s, a);
    assert ThreadInv(s.q, s.lock, t, s.pcs[t]);
    if SomeAsleep(s') && !s'.pcs[t].PopAsleep? {
      var u :| 0 <= u < |s'.pcs| && s'.pcs[u].PopAsleep?;
      assert s.pcs[u].PopAsleep?;
    }
  }

  lemma {:induction false} RunInv(ss: seq<State>, acts: seq<Action>, i: nat)
    requires IsRun(ss, acts) && i < |ss|
    ensures Inv(ss[i]) && HistoryInv(ss[i]) && Covered(ss[i])
  {
    if i > 0 {
      RunInv(ss, acts, i - 1);
      StepInv(ss[i - 1], acts[i - 1]);
      StepHistory(ss[i - 1], acts[i - 1]);
      StepCovered(ss[i - 1], acts[i - 1]);
    }
  }

  /** In every reachable state, spurious wake-ups included: if a thread is asleep, the queue is no
      longer than the number of producers between push and notify plus the number of consumers roused
      and not yet served. */
  lemma NoLostWakeup(ss: seq<State>, acts: seq<Action>, i: nat, t: Tid)
    requires IsRun(ss, acts) && i < |ss| && Asleep(ss[i], t)
    ensures |ss[i].pcs| == |ss[i].todo|
    ensures |ss[i].q| <= Total(Notifying, ss[i]) + Total(Roused, ss[i])
  {
    RunInv(ss, acts, i);
  }

  // ----- first in, first out -----

  /** Every run is linearizable to a FIFO queue on which a pop never answers that it is empty. */
  lemma LinearizableToFifo(ss: seq<State>, acts: seq<Action>, i: nat)
    requires IsRun(ss, acts) && i < |ss|
    ensures Linearizable(Unbounded, Visible(ss[i].hist))
    ensures Values(Puts(ss[i].hist)) == Takes(ss[i].hist) + ss[i].q
  {
    RunInv(ss, acts, i);
    AcceptedIsLinearizable(Unbounded, ss[i].hist);
    PutsAreTakesThenQueue(Unbounded, ss[i].hist);
  }

  lemma StepCallsProgram(s: State, a: Action, t: Tid)
    requires Inv(s) && Enabled(s, a) && t < |s.pcs|
    ensures |Step(s, a).todo| == |s.todo|
    ensures Calls(Step(s, a).hist, t) + Step(s, a).todo[t] == Calls(s.hist, t) + s.todo[t]
  {
    if a.Go? {
      if s.pcs[a.t] == Ready {
        ExtendCalls(s.hist, Call(a.t, s.todo[a.t][0]), t);
        assert s.todo[a.t] == [s.todo[a.t][0]] + s.todo[a.t][1..];
      } else {
        LogCallsNothing(s, a.t, t);
      }
    }
  }

  lemma LogCallsNothing(s: State, t: Tid, u: Tid)
    requires t < |s.pcs| && CanRun(s.lock, s.pcs[t])
    ensures Calls(s.hist + Exec(s.q, s.lock, t, s.pcs[t]).log, u) == Calls(s.hist, u)
  {
    var log := Exec(s.q, s.lock, t, s.pcs[t]).log;
    if log == [] {
      assert s.hist + log == s.hist;
    } else {
      assert log == [log[0]];
      ExtendCalls(s.hist, log[0], u);
    }
  }

  lemma {:induction false} CallsFollowProgram(ss: seq<State>, acts: seq<Action>, i: nat, t: Tid)
    requires IsRun(ss, acts) && i < |ss| && t < |ss[0].todo|
    ensures |ss[i].pcs| == |ss[i].todo| == |ss[0].todo|
    ensures Calls(ss[i].hist, t) + ss[i].todo[t] == ss[0].todo[t]
  {
    if i > 0 {
      CallsFollowProgram(ss, acts, i - 1, t);
      RunInv(ss, acts, i - 1);
      RunInv(ss, acts, i);
      StepCallsProgram(ss[i - 1], acts[i - 1], t);
    }
  }

  /** A thread that is between calls with nothing left to do has performed its program, each operation
      once and in order. */
  lemma ProgramsPerformed(ss: seq<State>, acts: seq<Action>, i: nat, t: Tid)
    requires IsRun(ss, acts) && i < |ss| && t < |ss[0].todo|
    ensures |ss[i].pcs| == |ss[i].todo| == |ss[0].todo|
    ensures ss[i].pcs[t] == Ready && ss[i].todo[t] == [] ==> Effects(ss[i].hist, t) == ss[0].todo[t]
  {
    RunInv(ss, acts, i);
    CallsFollowProgram(ss, acts, i, t);
    EffectsFollowCalls(Unbounded, ss[i].hist, t);
  }

  // ----- deadlock -----

  ghost predicate Stuck(s: State) {
    forall a: Action :: a.Go? ==> !Enabled(s, a)
  }

  ghost predicate Finished(s: State) {
    && |s.pcs| == |s.todo|
    && forall t :: 0 <= t < |s.pcs| ==> s.pcs[t] == Ready && s.todo[t] == []
  }

  /** Unless it has finished or sleeps, some thread can take a step. */
  lemma StuckThreads(s: State, t: Tid)
    requires Inv(s) && Stuck(s) && t < |s.pcs|
    ensures (s.pcs[t] == Ready && s.todo[t] == []) || s.pcs[t].PopAsleep?
  {
    var w := if SomeAsleep(s) then var u :| 0 <= u < |s.pcs| && s.pcs[u].PopAsleep?; u else 0;
    assert SomeAsleep(s) ==> Asleep(s, w);
    if s.lock.Held? {
      assert ThreadInv(s.q, s.lock, s.lock.t, s.pcs[s.lock.t]);
      assert Enabled(s, Go(s.lock.t, w));
    }
    assert !Enabled(s, Go(t, w));
  }

  /** When no thread can run, those that have not finished all sleep, and if any does the queue is
      empty. */
  lemma OnlySleepersRemain(ss: seq<State>, acts: seq<Action>, i: nat)
    requires IsRun(ss, acts) && i < |ss| && Stuck(ss[i])
    ensures |ss[i].pcs| == |ss[i].todo|
    ensures forall t :: 0 <= t < |ss[i].pcs| ==>
      (ss[i].pcs[t] == Ready && ss[i].todo[t] == []) || ss[i].pcs[t].PopAsleep?
    ensures !Finished(ss[i]) ==> ss[i].q == []
  {
    RunInv(ss, acts, i);
    var s := ss[i];
    forall t | 0 <= t < |s.pcs|
      ensures (s.pcs[t] == Ready && s.todo[t] == []) || s.pcs[t].PopAsleep?
    {
      StuckThreads(s, t);
    }
    SumZero(Shares(Notifying, s));
    SumZero(Shares(Roused, s));
  }

  /** Values queued plus pushes to come minus pops to come. */
  function Balance(s: State): int
    requires |s.pcs| == |s.todo|
  {
    |s.q| + Total(PutsLeft, s) - Total(TakesLeft, s)
  }

  lemma StepBalance(s: State, a: Action)
    requires Inv(s) && Enabled(s, a)
    ensures |Step(s, a).pcs| == |Step(s, a).todo| == |s.pcs| && Balance(Step(s, a)) == Balance(s)
  {
    StepTotal(PutsLeft, s, a);
    StepTotal(TakesLeft, s, a);
    assert ThreadInv(s.q, s.lock, a.t, s.pcs[a.t]);
  }

  lemma {:induction false} RunBalance(ss: seq<State>, acts: seq<Action>, i: nat)
    requires IsRun(ss, acts) && i < |ss|
    ensures |ss[i].pcs| == |ss[i].todo| == |ss[0].pcs| == |ss[0].todo| && Balance(ss[i]) == Balance(ss[0])
  {
    if i > 0 {
      RunBalance(ss, acts, i - 1);
      RunInv(ss, acts, i - 1);
      StepBalance(ss[i - 1], acts[i - 1]);
    }
  }

  /** A thread that only pushes, or only pops, now and to the end of its program. */
  ghost predicate KeepsRole(pc: Pc, ops: seq<Op>) {
    || (!(PhaseAt(pc).Pending? && PhaseAt(pc).op.Take?) && forall i :: 0 <= i < |ops| ==> ops[i].Put?)
    || (!(PhaseAt(pc).Pending? && PhaseAt(pc).op.Put?) && forall i :: 0 <= i < |ops| ==> ops[i].Take?)
  }

  lemma StepKeepsRoles(s: State, a: Action, u: Tid)
    requires Inv(s) && Enabled(s, a) && u < |s.pcs| && KeepsRole(s.pcs[u], s.todo[u])
    ensures |Step(s, a).pcs| == |Step(s, a).todo| == |s.pcs| && KeepsRole(Step(s, a).pcs[u], Step(s, a).todo[u])
  {
  }

  lemma {:induction false} RunKeepsRoles(ss: seq<State>, acts: seq<Action>, i: nat, t: Tid)
    requires IsRun(ss, acts) && i < |ss| && t < |ss[0].pcs| && KeepsRole(Ready, ss[0].todo[t])
    ensures |ss[i].pcs| == |ss[i].todo| == |ss[0].pcs| && KeepsRole(ss[i].pcs[t], ss[i].todo[t])
  {
    if i > 0 {
      RunKeepsRoles(ss, acts, i - 1, t);
      RunInv(ss, acts, i - 1);
      StepKeepsRoles(ss[i - 1], acts[i - 1], t);
    }
  }

  lemma {:induction false} NoPuts(ops: seq<Op>)
    requires forall i :: 0 <= i < |ops| ==> ops[i].Take?
    ensures CountPuts(ops) == 0
  {
    if ops != [] {
      NoPuts(ops[1..]);
    }
  }

  /** A run that can go no further has completed every operation exactly if every push was made and
      the workload has at least as many pushes as pops. */
  lemma CompletesIffAllPushed(ss: seq<State>, acts: seq<Action>)
    requires IsRun(ss, acts) && Stuck(ss[|acts|])
    ensures |ss[|acts|].pcs| == |ss[|acts|].todo| && |ss[0].pcs| == |ss[0].todo|
    ensures Finished(ss[|acts|]) <==>
      Total(PutsLeft, ss[|acts|]) == 0 && Total(TakesLeft, ss[0]) <= Total(PutsLeft, ss[0])
  {
    var n := |acts|;
    var s := ss[n];
    OnlySleepersRemain(ss, acts, n);
    RunBalance(ss, acts, n);
    if Finished(s) {
      SumZero(Shares(PutsLeft, s));
      SumZero(Shares(TakesLeft, s));
    } else {
      var t :| 0 <= t < |s.pcs| && !(s.pcs[t] == Ready && s.todo[t] == []);
      SumAtLeast(Shares(TakesLeft, s), t);
    }
  }

  /** With separate producers and consumers every push is always made, so a run that can go no further
      has completed every operation exactly if the workload has at least as many pushes as pops. */
  lemma CompletesIffEnoughPushes(ss: seq<State>, acts: seq<Action>)
    requires IsRun(ss, acts) && Stuck(ss[|acts|])
    requires forall t :: 0 <= t < |ss[0].pcs| ==> KeepsRole(Ready, ss[0].todo[t])
    ensures |ss[|acts|].pcs| == |ss[|acts|].todo| && |ss[0].pcs| == |ss[0].todo|
    ensures Finished(ss[|acts|]) <==> Total(TakesLeft, ss[0]) <= Total(PutsLeft, ss[0])
  {
    var n := |acts|;
    var s := ss[n];
    OnlySleepersRemain(ss, acts, n);
    RunBalance(ss, acts, n);
    CompletesIffAllPushed(ss, acts);
    forall t | 0 <= t < |s.pcs|
      ensures Shares(PutsLeft, s)[t] == 0
    {
      RunKeepsRoles(ss, acts, n, t);
      NoPuts(s.todo[t]);
    }
    SumZero(Shares(PutsLeft, s));
  }

  /** Without separate roles as many pushes as pops are not enough: a thread that pops before it
      pushes sleeps for ever. */
  lemma OwnPushTooLate() returns (ss: seq<State>, acts: seq<Action>)
    ensures IsRun(ss, acts) && Stuck(ss[|acts|])
    ensures |ss[|acts|].pcs| == |ss[|acts|].todo| && |ss[0].pcs| == |ss[0].todo|
    ensures Total(TakesLeft, ss[0]) <= Total(PutsLeft, ss[0]) && !Finished(ss[|acts|])
  {
    var s0 := State([], Free, [Ready], [[Take, Put(1)]], []);
    var s1 := Step(s0, Go(0, 0));
    var s2 := Step(s1, Go(0, 0));
    var s3 := Step(s2, Go(0, 0));
    ss, acts := [s0, s1, s2, s3], [Go(0, 0), Go(0, 0), Go(0, 0)];
    assert s3.pcs[0] == PopAsleep;
    assert s0.todo[0][1..] == [Put(1)] && [Put(1)][1..] == [];
    assert Shares(TakesLeft, s0) == [1] && Shares(PutsLeft, s0) == [1];
  }

  // ----- termination -----

  /** Every step of a thread uses up work; only a spurious wake-up adds some. */
  lemma StepWork(s: State, a: Action)
    requires Inv(s) && Enabled(s, a)
    ensures |Step(s, a).pcs| == |Step(s, a).todo|
    ensures a.Go? ==> Total(Work, Step(s, a)) < Total(Work, s)
    ensures a.Spurious? ==> Total(Work, Step(s, a)) == Total(Work, s) + 2
  {
    StepTotal(Work, s, a);
  }

  function Spurious(acts: seq<Action>): nat {
    if acts == [] then 0 else Spurious(acts[..|acts| - 1]) + if acts[|acts| - 1].Spurious? then 1 else 0
  }

  /** A run has at most eight steps per requested operation and three per spurious wake-up; without
      spurious wake-ups no workload runs for ever. */
  lemma {:induction false} RunsAreBounded(ss: seq<State>, acts: seq<Action>, i: nat)
    requires IsRun(ss, acts) && i < |ss|
    ensures |ss[i].pcs| == |ss[i].todo| && |ss[0].pcs| == |ss[0].todo|
    ensures Total(Work, ss[i]) + i <= Total(Work, ss[0]) + 3 * Spurious(acts[..i])
  {
    if i > 0 {
      RunsAreBounded(ss, acts, i - 1);
      RunInv(ss, acts, i - 1);
      StepWork(ss[i - 1], acts[i - 1]);
      assert acts[..i][..i - 1] == acts[..i - 1];
    }
  }
}
