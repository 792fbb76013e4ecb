/** Which workloads of the coarse-grained MPMC queue are free of deadlock. The condition is on the
    programs alone: no way of cutting them short, with every thread that has something left to do about
    to pop, takes as many values as it puts. */
module CondVarWorkloads {
  import opened FifoHistory
  import opened CondVarQueue
  import opened CondVarTheorems
  import opened Sums

  // ----- cuts of a workload -----

  /** A cut stops every thread after some of its operations. */
  predicate IsCut(todo: seq<seq<Op>>, c: seq<nat>) {
    |c| == |todo| && forall t :: 0 <= t < |c| ==> c[t] <= |todo[t]|
  }

  /** Some thread has an operation left, and whoever has one is about to pop. */
  predicate Blocked(todo: seq<seq<Op>>, c: seq<nat>) {
    && IsCut(todo, c)
    && (exists t :: 0 <= t < |c| && c[t] < |todo[t]|)
    && (forall t :: 0 <= t < |c| && c[t] < |todo[t]| ==> todo[t][c[t]].Take?)
  }

  function PutsBefore(todo: seq<seq<Op>>, c: seq<nat>): nat
    requires IsCut(todo, c)
  {
    Sum(seq(|c|, t requires 0 <= t < |c| => CountPuts(todo[t][..c[t]])))
  }

  function TakesBefore(todo: seq<seq<Op>>, c: seq<nat>): nat
    requires IsCut(todo, c)
  {
    Sum(seq(|c|, t requires 0 <= t < |c| => CountTakes(todo[t][..c[t]])))
  }

  /** Every run of the workload that can go no further has completed every operation. */
  ghost predicate AlwaysCompletes(todo: seq<seq<Op>>) {
    forall ss: seq<State>, acts :: IsRun(ss, acts) && ss[0].todo == todo && Stuck(ss[|acts|]) ==> Finished(ss[|acts|])
  }

  /** At every blocked cut there is a value left to take. */
  ghost predicate LeavesSomething(todo: seq<seq<Op>>) {
    forall c :: Blocked(todo, c) ==> TakesBefore(todo, c) < PutsBefore(todo, c)
  }

  // ----- where a run is in its programs -----

  /** `ops` is what is left of the program `prog` after the operation under way. */
  predicate Tracks(prog: seq<Op>, pc: Pc, ops: seq<Op>) {
    && |ops| <= |prog| && ops == prog[|prog| - |ops|..]
    && (pc != Ready ==>
          && |ops| < |prog| && PhaseAt(pc) != Idle
          && PhaseAt(pc).op == prog[|prog| - |ops| - 1])
  }

  lemma StepTracks(s: State, a: Action, prog: seq<Op>, t: Tid)
    requires Inv(s) && Enabled(s, a) && t < |s.pcs| && Tracks(prog, s.pcs[t], s.todo[t])
    ensures |Step(s, a).pcs| == |Step(s, a).todo| == |s.pcs|
    ensures Tracks(prog, Step(s, a).pcs[t], Step(s, a).todo[t])
  {
  }

  lemma {:induction false} RunTracks(ss: seq<State>, acts: seq<Action>, i: nat, t: Tid)
    requires IsRun(ss, acts) && i < |ss| && t < |ss[0].todo|
    ensures |ss[i].pcs| == |ss[i].todo| == |ss[0].todo|
    ensures Tracks(ss[0].todo[t], ss[i].pcs[t], ss[i].todo[t])
  {
    if i > 0 {
      RunTracks(ss, acts, i - 1, t);
      RunInv(ss, acts, i - 1);
      StepTracks(ss[i - 1], acts[i - 1], ss[0].todo[t], t);
    }
  }

  // ----- the queue at a cut -----

  /** Every thread is between calls or asleep. */
  predicate Quiet(s: State) {
    |s.pcs| == |s.todo| && forall t :: 0 <= t < |s.pcs| ==> s.pcs[t] == Ready || s.pcs[t].PopAsleep?
  }

  /** How many operations a thread between calls or asleep has completed. */
  function Done(prog: seq<Op>, pc: Pc, ops: seq<Op>): nat
    requires Tracks(prog, pc, ops)
  {
    |prog| - |ops| - if pc == Ready then 0 else 1
  }

  lemma {:induction false} CountSplit(ops: seq<Op>, n: nat)
    requires n <= |ops|
    ensures CountPuts(ops) == CountPuts(ops[..n]) + CountPuts(ops[n..])
    ensures CountTakes(ops) == CountTakes(ops[..n]) + CountTakes(ops[n..])
  {
    if n == 0 {
      assert ops[..0] == [] && ops[0..] == ops;
    } else {
      CountSplit(ops[1..], n - 1);
      assert ops[..n][1..] == ops[1..][..n - 1] && ops[n..] == ops[1..][n - 1..];
    }
  }

  /** What a thread has done and what it has left make up its program. */
  lemma DoneAndLeft(prog: seq<Op>, pc: Pc, ops: seq<Op>)
    requires Tracks(prog, pc, ops) && (pc == Ready || pc.PopAsleep?)
    ensures Share(PutsLeft, Ready, prog) == CountPuts(prog[..Done(prog, pc, ops)]) + Share(PutsLeft, pc, ops)
    ensures Share(TakesLeft, Ready, prog) == CountTakes(prog[..Done(prog, pc, ops)]) + Share(TakesLeft, pc, ops)
  {
    var n := Done(prog, pc, ops);
    CountSplit(prog, n);
    if pc.PopAsleep? {
      assert prog[n..] == [prog[n]] + ops;
    } else {
      assert prog[n..] == ops;
    }
  }

  /** The cut at which a quiet state stands. */
  ghost predicate StandsAt(s: State, todo: seq<seq<Op>>, c: seq<nat>) {
    && Quiet(s) && |s.pcs| == |todo| && IsCut(todo, c)
    && forall t :: 0 <= t < |todo| ==>
         Tracks(todo[t], s.pcs[t], s.todo[t]) && c[t] == Done(todo[t], s.pcs[t], s.todo[t])
  }

  lemma CutOf(ss: seq<State>, acts: seq<Action>, i: nat) returns (c: seq<nat>)
    requires IsRun(ss, acts) && i < |ss| && Quiet(ss[i])
    ensures StandsAt(ss[i], ss[0].todo, c)
  {
    RunTracks'(ss, acts, i);
    var s, todo := ss[i], ss[0].todo;
    c := seq(|todo|, t requires 0 <= t < |todo| => Done(todo[t], s.pcs[t], s.todo[t]));
  }

  lemma RunTracks'(ss: seq<State>, acts: seq<Action>, i: nat)
    requires IsRun(ss, acts) && i < |ss|
    ensures |ss[i].pcs| == |ss[i].todo| == |ss[0].todo|
    ensures forall t :: 0 <= t < |ss[0].todo| ==> Tracks(ss[0].todo[t], ss[i].pcs[t], ss[i].todo[t])
  {
    RunBalance(ss, acts, i);
    forall t | 0 <= t < |ss[0].todo|
      ensures Tracks(ss[0].todo[t], ss[i].pcs[t], ss[i].todo[t])
    {
      RunTracks(ss, acts, i, t);
    }
  }

  lemma SharesAtCut(s0: State, s: State, c: seq<nat>)
    requires |s0.pcs| == |s0.todo| && (forall t :: 0 <= t < |s0.pcs| ==> s0.pcs[t] == Ready)
    requires StandsAt(s, s0.todo, c)
    ensures Total(PutsLeft, s0) == PutsBefore(s0.todo, c) + Total(PutsLeft, s)
    ensures Total(TakesLeft, s0) == TakesBefore(s0.todo, c) + Total(TakesLeft, s)
  {
    var todo := s0.todo;
    var puts: seq<nat> := seq(|c|, t requires 0 <= t < |c| => CountPuts(todo[t][..c[t]]));
    var takes: seq<nat> := seq(|c|, t requires 0 <= t < |c| => CountTakes(todo[t][..c[t]]));
    forall t | 0 <= t < |todo|
      ensures Shares(PutsLeft, s0)[t] == puts[t] + Shares(PutsLeft, s)[t]
      ensures Shares(TakesLeft, s0)[t] == takes[t] + Shares(TakesLeft, s)[t]
    {
      DoneAndLeft(todo[t], s.pcs[t], s.todo[t]);
    }
    SumPlus(puts, Shares(PutsLeft, s), Shares(PutsLeft, s0));
    SumPlus(takes, Shares(TakesLeft, s), Shares(TakesLeft, s0));
  }

  /** With every thread between calls or asleep, the queue holds what the cut has put and not taken. */
  lemma QueueAtCut(ss: seq<State>, acts: seq<Action>, i: nat, c: seq<nat>)
    requires IsRun(ss, acts) && i < |ss| && StandsAt(ss[i], ss[0].todo, c)
    ensures |ss[i].q| == PutsBefore(ss[0].todo, c) - TakesBefore(ss[0].todo, c)
  {
    RunBalance(ss, acts, i);
    SharesAtCut(ss[0], ss[i], c);
  }

  /** If any quiet thread sleeps, nothing is queued. */
  lemma QuietSleepersFindNothing(ss: seq<State>, acts: seq<Action>, i: nat)
    requires IsRun(ss, acts) && i < |ss| && Quiet(ss[i]) && SomeAsleep(ss[i])
    ensures ss[i].q == []
  {
    RunInv(ss, acts, i);
    SumZero(Shares(Notifying, ss[i]));
    SumZero(Shares(Roused, ss[i]));
  }

  // ----- a stuck run stands at a blocked cut -----

  lemma StuckAtCut(ss: seq<State>, acts: seq<Action>) returns (c: seq<nat>)
    requires IsRun(ss, acts) && Stuck(ss[|acts|]) && !Finished(ss[|acts|])
    ensures Blocked(ss[0].todo, c) && TakesBefore(ss[0].todo, c) == PutsBefore(ss[0].todo, c)
  {
    var n := |acts|;
    OnlySleepersRemain(ss, acts, n);
    c := CutOf(ss, acts, n);
    QueueAtCut(ss, acts, n, c);
    var s, todo := ss[n], ss[0].todo;
    var u :| 0 <= u < |s.pcs| && !(s.pcs[u] == Ready && s.todo[u] == []);
    assert c[u] < |todo[u]|;
  }

  // ----- a blocked cut can be reached -----

  ghost predicate Reaches(todo: seq<seq<Op>>, s: State) {
    exists ss: seq<State>, acts :: IsRun(ss, acts) && ss[0].todo == todo && ss[|acts|] == s
  }

  lemma RunGrows(ss: seq<State>, acts: seq<Action>, a: Action, s': State)
    requires IsRun(ss, acts) && Enabled(ss[|acts|], a) && s' == Step(ss[|acts|], a)
    ensures IsRun(ss + [s'], acts + [a])
  {
    var ss', acts' := ss + [s'], acts + [a];
    forall i | 0 <= i < |acts'|
      ensures Enabled(ss'[i], acts'[i]) && ss'[i + 1] == Step(ss'[i], acts'[i])
    {
      if i < |acts| {
        assert ss'[i] == ss[i] && acts'[i] == acts[i] && ss'[i + 1] == ss[i + 1];
      }
    }
  }

  lemma StepReaches(todo: seq<seq<Op>>, s: State, a: Action)
    requires Reaches(todo, s) && Enabled(s, a)
    ensures Reaches(todo, Step(s, a))
  {
    var ss: seq<State>, acts :| IsRun(ss, acts) && ss[0].todo == todo && ss[|acts|] == s;
    RunGrows(ss, acts, a, Step(s, a));
    assert (ss + [Step(s, a)])[0] == ss[0] && (ss + [Step(s, a)])[|acts + [a]|] == Step(s, a);
  }

  lemma ReachesInv(todo: seq<seq<Op>>, s: State)
    requires Reaches(todo, s)
    ensures Inv(s) && |s.pcs| == |todo|
    ensures forall t :: 0 <= t < |todo| ==> Tracks(todo[t], s.pcs[t], s.todo[t])
  {
    var ss: seq<State>, acts :| IsRun(ss, acts) && ss[0].todo == todo && ss[|acts|] == s;
    RunInv(ss, acts, |acts|);
    RunTracks'(ss, acts, |acts|);
  }

  /** No thread has gone past the cut. */
  predicate Within(s: State, todo: seq<seq<Op>>, c: seq<nat>) {
    && |s.pcs| == |s.todo| == |todo| && IsCut(todo, c)
    && forall t :: 0 <= t < |todo| ==> |todo[t]| - c[t] <= |s.todo[t]|
  }

  /** The thread has reached the cut, or sleeps before it. */
  predicate Arrived(s: State, todo: seq<seq<Op>>, c: seq<nat>, t: Tid)
    requires Within(s, todo, c) && t < |todo|
  {
    s.pcs[t].PopAsleep? || (s.pcs[t] == Ready && |s.todo[t]| == |todo[t]| - c[t])
  }

  /** A thread that can move the others towards the cut, or itself. */
  lemma SomebodyMoves(s: State, todo: seq<seq<Op>>, c: seq<nat>, t: Tid) returns (u: Tid, w: Tid)
    requires Inv(s) && Within(s, todo, c) && t < |todo| && !Arrived(s, todo, c, t)
    ensures Enabled(s, Go(u, w)) && Within(Step(s, Go(u, w)), todo, c)
  {
    w := if SomeAsleep(s) then var v :| 0 <= v < |s.pcs| && s.pcs[v].PopAsleep?; v else 0;
    assert SomeAsleep(s) ==> Asleep(s, w);
    u := if s.lock.Held? then s.lock.t else t;
    assert ThreadInv(s.q, s.lock, u, s.pcs[u]);
  }

  /** The programs can be run up to any cut, where every thread has arrived or sleeps. */
  lemma {:induction false} ReachCut(s: State, todo: seq<seq<Op>>, c: seq<nat>) returns (s': State)
    requires Reaches(todo, s) && Within(s, todo, c) && Inv(s)
    ensures Reaches(todo, s') && Within(s', todo, c)
    ensures forall t :: 0 <= t < |todo| ==> Arrived(s', todo, c, t)
    decreases Total(Work, s)
  {
    if t :| 0 <= t < |todo| && !Arrived(s, todo, c, t) {
      var u, w := SomebodyMoves(s, todo, c, t);
      StepReaches(todo, s, Go(u, w));
      StepWork(s, Go(u, w));
      StepInv(s, Go(u, w));
      s' := ReachCut(Step(s, Go(u, w)), todo, c);
    } else {
      s' := s;
    }
  }

  // ----- and there everybody falls asleep -----

  lemma QuietIsFree(s: State)
    requires Inv(s) && Quiet(s)
    ensures s.lock == Free
  {
    assert s.lock == Free || !Holds(s.pcs[s.lock.t]);
  }

  /** Between calls with nothing queued, a thread about to pop can be sent to sleep. */
  lemma FallAsleep(s: State, todo: seq<seq<Op>>, t: Tid) returns (s': State)
    requires Reaches(todo, s) && Inv(s) && Quiet(s) && s.q == [] && t < |s.pcs|
    requires s.pcs[t] == Ready && s.todo[t] != [] && s.todo[t][0].Take?
    ensures Reaches(todo, s') && s'.q == [] && Inv(s')
    ensures s'.pcs == s.pcs[t := PopAsleep] && s'.todo == s.todo[t := s.todo[t][1..]]
  {
    QuietIsFree(s);
    var s1 := Step(s, Go(t, 0));
    StepReaches(todo, s, Go(t, 0));
    StepInv(s, Go(t, 0));
    var s2 := Step(s1, Go(t, 0));
    StepReaches(todo, s1, Go(t, 0));
    StepInv(s1, Go(t, 0));
    s' := Step(s2, Go(t, 0));
    StepReaches(todo, s2, Go(t, 0));
    StepInv(s2, Go(t, 0));
    assert s'.pcs == s.pcs[t := PopAsleep];
  }

  /** Among the first `n` threads, those that still have operations are asleep. */
  predicate AsleepUpTo(s: State, n: nat)
    requires n <= |s.pcs| == |s.todo|
  {
    forall t :: 0 <= t < n ==> s.pcs[t].PopAsleep? || s.todo[t] == []
  }

  predicate PopsNext(s: State)
    requires |s.pcs| == |s.todo|
  {
    forall t :: 0 <= t < |s.pcs| && s.pcs[t] == Ready && s.todo[t] != [] ==> s.todo[t][0].Take?
  }

  lemma {:induction false} AllFallAsleep(s: State, todo: seq<seq<Op>>, n: nat) returns (s': State)
    requires Reaches(todo, s) && Inv(s) && Quiet(s) && s.q == [] && PopsNext(s)
    requires n <= |s.pcs| && AsleepUpTo(s, n)
    ensures Reaches(todo, s') && Quiet(s') && |s'.pcs| == |s.pcs| && AsleepUpTo(s', |s.pcs|)
    ensures Inv(s')
    ensures forall t :: 0 <= t < |s.pcs| && s.pcs[t].PopAsleep? ==> s'.pcs[t].PopAsleep?
    ensures forall t :: n <= t < |s.pcs| && s.todo[t] != [] ==> s'.pcs[t].PopAsleep?
    decreases |s.pcs| - n
  {
    if n == |s.pcs| {
      s' := s;
    } else if s.pcs[n] == Ready && s.todo[n] != [] {
      var s1 := FallAsleep(s, todo, n);
      s' := AllFallAsleep(s1, todo, n + 1);
    } else {
      s' := AllFallAsleep(s, todo, n + 1);
    }
  }

  lemma SleepersAreStuck(s: State)
    requires Inv(s) && Quiet(s) && AsleepUpTo(s, |s.pcs|)
    ensures Stuck(s)
  {
  }

  lemma SomeStart(todo: seq<seq<Op>>) returns (s: State)
    ensures Reaches(todo, s) && Inv(s) && s.todo == todo
  {
    s := State([], Free, seq(|todo|, _ => Ready), todo, []);
    var acts: seq<Action> := [];
    assert IsRun([s], acts) && [s][0].todo == todo && [s][|acts|] == s;
  }

  lemma ArrivedQuiet(todo: seq<seq<Op>>, c: seq<nat>, s: State)
    requires Within(s, todo, c) && forall t :: 0 <= t < |todo| ==> Arrived(s, todo, c, t)
    ensures Quiet(s)
  {
    forall t | 0 <= t < |s.pcs|
      ensures s.pcs[t] == Ready || s.pcs[t].PopAsleep?
    {
      assert Arrived(s, todo, c, t);
    }
  }

  lemma ArrivedAwake(todo: seq<seq<Op>>, c: seq<nat>, s: State)
    requires Within(s, todo, c) && !SomeAsleep(s)
    requires forall t :: 0 <= t < |todo| ==> Arrived(s, todo, c, t) && Tracks(todo[t], s.pcs[t], s.todo[t])
    ensures StandsAt(s, todo, c)
  {
    forall t | 0 <= t < |todo|
      ensures s.pcs[t] == Ready && c[t] == Done(todo[t], s.pcs[t], s.todo[t])
    {
      assert Arrived(s, todo, c, t);
    }
  }

  /** On arrival at a cut that takes at least what it puts, the queue is empty. */
  lemma NothingAtCut(todo: seq<seq<Op>>, c: seq<nat>, s: State)
    requires Reaches(todo, s) && Within(s, todo, c) && forall t :: 0 <= t < |todo| ==> Arrived(s, todo, c, t)
    requires PutsBefore(todo, c) <= TakesBefore(todo, c)
    ensures Quiet(s) && s.q == []
  {
    ArrivedQuiet(todo, c, s);
    ReachesInv(todo, s);
    if !SomeAsleep(s) {
      ArrivedAwake(todo, c, s);
    }
    var ss: seq<State>, acts :| IsRun(ss, acts) && ss[0].todo == todo && ss[|acts|] == s;
    if SomeAsleep(s) {
      QuietSleepersFindNothing(ss, acts, |acts|);
    } else {
      QueueAtCut(ss, acts, |acts|, c);
    }
  }

  /** From a blocked cut that takes at least what it puts, a run that never completes. */
  lemma BlockedCutIsReached(todo: seq<seq<Op>>, c: seq<nat>)
    requires Blocked(todo, c) && PutsBefore(todo, c) <= TakesBefore(todo, c)
    ensures !AlwaysCompletes(todo)
  {
    var start := SomeStart(todo);
    var s := ReachCut(start, todo, c);
    NothingAtCut(todo, c, s);
    ReachesInv(todo, s);
    assert PopsNext(s) by {
      forall t | 0 <= t < |s.pcs| && s.pcs[t] == Ready && s.todo[t] != []
        ensures s.todo[t][0].Take?
      {
        assert Arrived(s, todo, c, t) && Tracks(todo[t], s.pcs[t], s.todo[t]);
        assert s.todo[t][0] == todo[t][c[t]];
      }
    }
    var s' := AllFallAsleep(s, todo, 0);
    SleepersAreStuck(s');
    var u :| 0 <= u < |c| && c[u] < |todo[u]|;
    assert Arrived(s, todo, c, u) && s'.pcs[u].PopAsleep?;
    var ss: seq<State>, acts :| IsRun(ss, acts) && ss[0].todo == todo && ss[|acts|] == s';
    assert !Finished(ss[|acts|]);
  }

  /** A workload cannot deadlock if and only if every blocked cut of it puts more than it takes:
      whatever the threads, their programs and the mixture of pushes and pops in them. */
  lemma CompletesIffCutsLeaveSomething(todo: seq<seq<Op>>)
    ensures AlwaysCompletes(todo) <==> LeavesSomething(todo)
  {
    if LeavesSomething(todo) {
      forall ss: seq<State>, acts | IsRun(ss, acts) && ss[0].todo == todo && Stuck(ss[|acts|])
        ensures Finished(ss[|acts|])
      {
        if !Finished(ss[|acts|]) {
          var c := StuckAtCut(ss, acts);
          assert false;
        }
      }
    } else {
      var c :| Blocked(todo, c) && PutsBefore(todo, c) <= TakesBefore(todo, c);
      BlockedCutIsReached(todo, c);
    }
  }

  // ----- pushes and pops in all -----

  /** The cut that cuts nothing off. */
  function Whole(todo: seq<seq<Op>>): (c: seq<nat>)
    ensures IsCut(todo, c)
  {
    seq(|todo|, t requires 0 <= t < |todo| => |todo[t]|)
  }

  lemma WholeTotals(s: State)
    requires |s.pcs| == |s.todo| && forall t :: 0 <= t < |s.pcs| ==> s.pcs[t] == Ready
    ensures Total(PutsLeft, s) == PutsBefore(s.todo, Whole(s.todo))
    ensures Total(TakesLeft, s) == TakesBefore(s.todo, Whole(s.todo))
  {
    var c := Whole(s.todo);
    assert forall t :: 0 <= t < |c| ==> s.todo[t][..c[t]] == s.todo[t];
    assert Shares(PutsLeft, s) == seq(|c|, t requires 0 <= t < |c| => CountPuts(s.todo[t][..c[t]]));
    assert Shares(TakesLeft, s) == seq(|c|, t requires 0 <= t < |c| => CountTakes(s.todo[t][..c[t]]));
  }

  /** Every workload has a run that can go no further. */
  lemma SomeRunEnds(todo: seq<seq<Op>>) returns (ss: seq<State>, acts: seq<Action>)
    ensures IsRun(ss, acts) && ss[0].todo == todo && Stuck(ss[|acts|])
  {
    var start := SomeStart(todo);
    var c := Whole(todo);
    var s := ReachCut(start, todo, c);
    ArrivedQuiet(todo, c, s);
    ReachesInv(todo, s);
    forall t | 0 <= t < |s.pcs|
      ensures s.pcs[t].PopAsleep? || s.todo[t] == []
    {
      assert Arrived(s, todo, c, t);
    }
    SleepersAreStuck(s);
    ss, acts :| IsRun(ss, acts) && ss[0].todo == todo && ss[|acts|] == s;
  }

  ghost predicate SeparateRoles(todo: seq<seq<Op>>) {
    forall t :: 0 <= t < |todo| ==> KeepsRole(Ready, todo[t])
  }

  predicate AsManyPushes(todo: seq<seq<Op>>) {
    TakesBefore(todo, Whole(todo)) <= PutsBefore(todo, Whole(todo))
  }

  /** As many pushes as pops are always needed, and they are enough when every thread only pushes or
      only pops. */
  lemma EnoughPushes(todo: seq<seq<Op>>)
    ensures AlwaysCompletes(todo) ==> AsManyPushes(todo)
    ensures SeparateRoles(todo) && AsManyPushes(todo) ==> AlwaysCompletes(todo)
  {
    var ss, acts := SomeRunEnds(todo);
    CompletesIffAllPushed(ss, acts);
    WholeTotals(ss[0]);
    if SeparateRoles(todo) {
      forall ss: seq<State>, acts | IsRun(ss, acts) && ss[0].todo == todo && Stuck(ss[|acts|])
        ensures Finished(ss[|acts|]) <==> AsManyPushes(todo)
      {
        CompletesIffEnoughPushes(ss, acts);
        WholeTotals(ss[0]);
      }
    }
  }

  lemma TwoThreads(todo: seq<seq<Op>>, c: seq<nat>)
    requires IsCut(todo, c) && |todo| == 2
    ensures PutsBefore(todo, c) == CountPuts(todo[0][..c[0]]) + CountPuts(todo[1][..c[1]])
    ensures TakesBefore(todo, c) == CountTakes(todo[0][..c[0]]) + CountTakes(todo[1][..c[1]])
  {
    var puts: seq<nat> := seq(|c|, t requires 0 <= t < |c| => CountPuts(todo[t][..c[t]]));
    var takes: seq<nat> := seq(|c|, t requires 0 <= t < |c| => CountTakes(todo[t][..c[t]]));
    assert puts[1..][1..] == [] && takes[1..][1..] == [];
    assert Sum(puts[1..]) == puts[1];
    assert Sum(takes[1..]) == takes[1];
  }

  lemma CountFirst(op: Op, ops: seq<Op>)
    ensures CountPuts([op] + ops) == (if op.Put? then 1 else 0) + CountPuts(ops)
    ensures CountTakes([op] + ops) == (if op.Take? then 1 else 0) + CountTakes(ops)
  {
    assert ([op] + ops)[1..] == ops;
  }

  lemma FirstMixed(x: int, y: int, n: nat)
    requires 2 <= n <= 3
    ensures CountPuts([Put(x), Put(y), Take][..n]) == 2 && CountTakes([Put(x), Put(y), Take][..n]) == n - 2
  {
    var rest := if n == 3 then [Take] + [] else [];
    CountFirst(Take, []);
    CountFirst(Put(y), rest);
    CountFirst(Put(x), [Put(y)] + rest);
    assert [Put(x), Put(y), Take][..n] == [Put(x)] + ([Put(y)] + rest);
  }

  lemma SecondMixed(z: int, n: nat)
    requires n == 0 || n == 2
    ensures CountPuts([Take, Put(z)][..n]) == CountTakes([Take, Put(z)][..n]) == n / 2
  {
    CountFirst(Put(z), []);
    CountFirst(Take, [Put(z)] + []);
    assert n == 2 ==> [Take, Put(z)][..n] == [Take] + ([Put(z)] + []);
  }

  /** Mixed threads do not always need separate roles: two values pushed before the first pop are
      enough for these two. */
  lemma MixedRolesComplete(x: int, y: int, z: int)
    ensures AlwaysCompletes([[Put(x), Put(y), Take], [Take, Put(z)]])
  {
    var todo := [[Put(x), Put(y), Take], [Take, Put(z)]];
    forall c | Blocked(todo, c)
      ensures TakesBefore(todo, c) < PutsBefore(todo, c)
    {
      TwoThreads(todo, c);
      FirstMixed(x, y, c[0]);
      SecondMixed(z, c[1]);
    }
    CompletesIffCutsLeaveSomething(todo);
  }
}
