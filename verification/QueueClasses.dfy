/** The two MPMC queues as classes, one call at a time: what each call does to the objects, proved
    against the sequential queue that the interleaved runs are linearizable to. */
module QueueClasses {
  import opened FifoHistory
  import opened CondVarQueue

  class Node {
    var data: int
    var next: Node?

    constructor ()
      ensures next == null
    {
      next := null;
    }
  }

  class LinkedQueue {
    var head: Node
    var tail: Node
    ghost var nodes: seq<Node>

    /** `nodes` is the list from `head` to `tail`, the dummy first. */
    ghost predicate Valid()
      reads this, nodes
    {
      && nodes != [] && nodes[0] == head && nodes[|nodes| - 1] == tail
      && (forall i, j :: 0 <= i < j < |nodes| ==> nodes[i] != nodes[j])
      && (forall i :: 0 <= i < |nodes| - 1 ==> nodes[i].next == nodes[i + 1])
      && tail.next == null
    }

    /** The values behind the dummy. */
    ghost function Contents(): seq<int>
      requires nodes != []
      reads this, nodes
    {
      seq(|nodes| - 1, i requires 0 <= i < |nodes| - 1 reads this, nodes => nodes[i + 1].data)
    }

    constructor ()
      ensures Valid() && fresh(nodes) && Contents() == []
    {
      var dummy := new Node();
      head, tail := dummy, dummy;
      nodes := [dummy];
    }

    /** Of the nodes already in the list only the last is written, and only its link. */
    method Enqueue(data: int)
      requires Valid()
      modifies this`tail, this`nodes, tail`next
      ensures Valid() && fresh(tail) && nodes == old(nodes) + [tail]
      ensures Contents() == After(Unbounded, old(Contents()), Put(data))
    {
      var newNode := new Node();
      newNode.data := data;
      tail.next := newNode;
      tail := newNode;
      nodes := nodes + [newNode];
    }

    /** The old dummy leaves the list, the node dequeued is the new one, and no node is written. */
    method Dequeue() returns (res: Res)
      requires Valid()
      modifies this`head, this`nodes
      ensures Valid() && res == Answer(Unbounded, old(Contents()), Take)
      ensures Contents() == After(Unbounded, old(Contents()), Take)
      ensures nodes == if res == Empty then old(nodes) else old(nodes)[1..]
    {
      var currentHead := head;
      var newHead := currentHead.next;
      assert |nodes| > 1 ==> nodes[0].next == nodes[1];
      if newHead == null {
        return Empty;
      }
      res := Got(newHead.data);
      head := newHead;
      nodes := nodes[1..];
    }
  }

  // ----- the queue with a condition variable -----

  /** What thread `t` does in the step machine when it runs alone for at most `n` statements. */
  function Alone(q: seq<int>, lock: Mutex, t: Tid, pc: Pc, n: nat): Outcome
    decreases n
  {
    if n == 0 || !CanRun(lock, pc) then Outcome(q, lock, pc, [])
    else
      var o := Exec(q, lock, t, pc);
      var rest := Alone(o.q, o.lock, t, o.pc, n - 1);
      rest.(log := o.log + rest.log)
  }

  /** A push alone appends its value, returns, and leaves the mutex free. */
  lemma PushAloneIs(q: seq<int>, t: Tid, v: int)
    ensures Alone(q, Free, t, PushCalled(v), 5) == Outcome(q + [v], Free, Ready, [Lin(t, Put(v), Ok), Ret(t, Ok)])
  {
    var o := Outcome(q + [v], Free, Ready, [Ret(t, Ok)]);
    assert Alone(q + [v], Free, t, PushDone(v), 1) == o;
    assert Alone(q + [v], Free, t, PushNotify(v), 2) == o;
    assert Alone(q + [v], Held(t), t, PushQueued(v), 3) == o;
  }

  lemma PopEnds(q: seq<int>, t: Tid, x: int)
    ensures Alone(q, Held(t), t, PopTaken(x), 2) == Outcome(q, Free, Ready, [Ret(t, Got(x))])
  {
    assert Alone(q, Free, t, PopDone(x), 1) == Outcome(q, Free, Ready, [Ret(t, Got(x))]);
  }

  lemma PopTakes(q: seq<int>, t: Tid)
    requires q != []
    ensures Alone(q, Held(t), t, PopFront(false), 4) ==
      Outcome(q[1..], Free, Ready, [Lin(t, Take, Got(q[0])), Ret(t, Got(q[0]))])
  {
    PopEnds(q[1..], t, q[0]);
    assert Alone(q, Held(t), t, PopTake(q[0], false), 3) ==
      Outcome(q[1..], Free, Ready, [Lin(t, Take, Got(q[0])), Ret(t, Got(q[0]))]);
  }

  /** A pop alone removes the first value and returns it, or falls asleep; it leaves the mutex free. */
  lemma PopAloneIs(q: seq<int>, t: Tid)
    ensures Alone(q, Free, t, PopCalled, 6) ==
      if q == [] then Outcome(q, Free, PopAsleep, [])
      else Outcome(q[1..], Free, Ready, [Lin(t, Take, Got(q[0])), Ret(t, Got(q[0]))])
  {
    if q == [] {
      assert Alone(q, Held(t), t, PopTest(false), 5) == Outcome(q, Free, PopAsleep, []);
    } else {
      PopTakes(q, t);
      assert Alone(q, Held(t), t, PopTest(false), 5) == Alone(q, Held(t), t, PopFront(false), 4);
    }
  }

  /** The ghost fields remember what was ever pushed and popped. */
  class WaitingQueue {
    var queue: seq<int>
    ghost var pushed: seq<int>
    ghost var popped: seq<int>

    ghost predicate Valid()
      reads this
    {
      pushed == popped + queue
    }

    constructor ()
      ensures Valid() && pushed == [] && popped == []
    {
      queue, pushed, popped := [], [], [];
    }

    /** Every thread, running `push` alone in the step machine, leaves the queue as this does. */
    method Push(val: int)
      requires Valid()
      modifies this
      ensures Valid() && pushed == old(pushed) + [val] && popped == old(popped)
      ensures forall t :: Alone(old(queue), Free, t, PushCalled(val), 5).q == queue
    {
      forall t | true
        ensures Alone(queue, Free, t, PushCalled(val), 5).q == queue + [val]
      {
        PushAloneIs(queue, t, val);
      }
      queue := queue + [val];
      pushed := pushed + [val];
    }

    /** One pass of `pop`. The value returned is the oldest one not returned before; `Empty` stands for
        falling asleep in `wait`, which happens only if everything pushed has been popped. Every thread
        running `pop` alone in the step machine returns, or sleeps, likewise. */
    method PopOrSleep() returns (res: Res)
      requires Valid()
      modifies this
      ensures Valid() && pushed == old(pushed)
      ensures res == Empty || (res.Got? && |old(popped)| < |pushed| && res.v == pushed[|old(popped)|])
      ensures if res == Empty then popped == old(popped) == pushed else popped == old(popped) + [pushed[|old(popped)|]]
      ensures forall t :: Alone(old(queue), Free, t, PopCalled, 6).q == queue
      ensures forall t ::
        Alone(old(queue), Free, t, PopCalled, 6).pc == if res == Empty then PopAsleep else Ready
    {
      forall t | true
        ensures Alone(queue, Free, t, PopCalled, 6).q == if queue == [] then queue else queue[1..]
        ensures Alone(queue, Free, t, PopCalled, 6).pc == if queue == [] then PopAsleep else Ready
      {
        PopAloneIs(queue, t);
      }
      if queue == [] {
        return Empty;
      }
      res := Got(queue[0]);
      popped := popped + [queue[0]];
      queue := queue[1..];
    }
  }
}
