/** The reactor server as classes: sockets updated in place, slots in growing sequences, the scan for
    a free slot, and the loop over a batch of ready descriptors. Each method is proved against the
    function of the same name. */
module ServerClasses {
  import opened Int32
  import opened ClientInput
  import opened PeerSlots
  import opened Reactor

  /** The operating system's table of open descriptors. */
  class Kernel {
    var open: map<int, nat>
    var next: nat
    var wrong: bool

    ghost function Value(): Os
      reads this
    {
      Os(open, next, wrong)
    }

    constructor (acceptor: int)
      ensures Value() == Os(map[acceptor := 0], 1, false)
    {
      open, next, wrong := map[acceptor := 0], 1, false;
    }

    method Accept(fd: int) returns (conn: nat)
      requires CanAccept(Value(), fd)
      modifies this
      ensures Value() == OsAccept(old(Value()), fd) && conn == old(next)
    {
      conn := next;
      open, next := open[fd := conn], conn + 1;
    }

    method Close(fd: int, conn: nat)
      modifies this
      ensures Value() == OsClose(old(Value()), fd, conn)
    {
      wrong := wrong || fd !in open || open[fd] != conn;
      open := open - {fd};
    }
  }

  class Socket {
    const descriptor: int
    const conn: nat
    var state: SocketState

    ghost function Value(): Sock
      reads this
    {
      Sock(descriptor, state, conn)
    }

    constructor (fd: int, conn: nat)
      ensures Value() == Sock(fd, CONNECTED, conn)
    {
      descriptor, this.conn, state := fd, conn, CONNECTED;
    }

    method Close(kernel: Kernel)
      modifies this, kernel
      ensures Value() == Closed(old(Value())) && state == DISCONNECTED
      ensures kernel.Value() == CloseIn(old(kernel.Value()), old(Value()))
      ensures kernel.open ==
        if old(state) != DISCONNECTED && descriptor > 0 then old(kernel.open) - {descriptor} else old(kernel.open)
    {
      if state != DISCONNECTED {
        if descriptor > 0 {
          kernel.Close(descriptor, conn);
        }
        state := DISCONNECTED;
      }
    }

    method IsConnectionLost(error: int) returns (ret: bool)
      modifies this
      ensures ret <==> error in {100, 101, 102, 103, 104}
      ensures Value() == if ret then Closed(old(Value())) else old(Value())
    {
      ret := false;
      if error >= 100 && error <= 104 {
        ret := true;
      }
      if ret {
        state := DISCONNECTED;
      }
    }
  }

  lemma {:induction false} FirstFreeIs(flags: seq<bool>, i: nat)
    requires i <= |flags| && (forall j :: 0 <= j < i ==> flags[j]) && (i < |flags| ==> !flags[i])
    ensures FirstFree(flags) == i
  {
    FirstFreeIsLeast(flags);
  }

  /** The table leads every event to a slot that exists, except a valid event of the acceptor. */
  lemma SlotExists(r: Server, e: Event)
    requires Inv(r) && CanDeliver(r, e) && (e.fd == r.acceptor && !e.valid ==> r.slots.socks != [])
    ensures (e.fd == r.acceptor && e.valid) || Known(r, e.fd)[e.fd] < |r.slots.socks| == |r.slots.flags|
    ensures |r.slots.flags| <= INT_MAX
  {
    assert e.fd != r.acceptor ==> Leads(r, e.fd);
  }

  class TcpServerReactor {
    const kernel: Kernel
    const acceptor: int
    var peerSockets: seq<Socket>
    var connectionFlags: seq<bool>
    var peerSocketIndexTable: map<int, nat>
    var interest: set<int>

    /** Every slot holds a socket object of its own. */
    ghost predicate Valid()
      reads this
    {
      && |peerSockets| == |connectionFlags|
      && forall i, j :: 0 <= i < j < |peerSockets| ==> peerSockets[i] != peerSockets[j]
    }

    ghost function SlotsValue(): PeerSlots.Slots
      reads this, peerSockets
    {
      PeerSlots.Slots(
        connectionFlags,
        seq(|peerSockets|, i requires 0 <= i < |peerSockets| reads this, peerSockets => peerSockets[i].Value()))
    }

    ghost function Value(): Server
      reads this, peerSockets, kernel
    {
      Server(SlotsValue(), peerSocketIndexTable, interest, kernel.Value(), acceptor, false)
    }

    constructor (acceptor: int)
      ensures Valid() && fresh(kernel) && Value() == Started(acceptor)
    {
      this.acceptor := acceptor;
      kernel := new Kernel(acceptor);
      peerSockets, connectionFlags := [], [];
      peerSocketIndexTable, interest := map[], {acceptor};
    }

    /** The slot number is kept in an `int`, so the source needs no more slots than an `int` counts. */
    method AddPeer(peer: Socket) returns (ret: int)
      requires Valid() && peer !in peerSockets && |connectionFlags| <= INT_MAX
      modifies this`peerSockets, this`connectionFlags, peerSockets, kernel
      ensures Valid() && ret == FirstFree(old(connectionFlags)) && 0 <= ret < |peerSockets| && peerSockets[ret] == peer
      ensures SlotsValue() == PeerSlots.AddPeer(old(SlotsValue()), old(peer.Value()))
      ensures kernel.Value() == AddPeerIn(old(kernel.Value()), old(SlotsValue()))
      ensures forall s :: s in peerSockets ==> s in old(peerSockets) || s == peer
    {
      var currentSize := |peerSockets|;
      var nonUserPeerIndex := -1;
      var i := 0;
      while i < currentSize
        invariant 0 <= i <= currentSize && nonUserPeerIndex == -1
        invariant forall j :: 0 <= j < i ==> connectionFlags[j]
      {
        if !connectionFlags[i] {
          nonUserPeerIndex := Wrap(i);
          break;
        }
        i := i + 1;
      }
      FirstFreeIs(connectionFlags, i);
      if nonUserPeerIndex == -1 {
        connectionFlags := connectionFlags + [true];
        peerSockets := peerSockets + [peer];
        ret := |peerSockets| - 1;
      } else {
        peerSockets[nonUserPeerIndex].Close(kernel);
        peerSockets := peerSockets[nonUserPeerIndex := peer];
        connectionFlags := connectionFlags[nonUserPeerIndex := true];
        ret := nonUserPeerIndex;
      }
    }

    method RemovePeer(peerIndex: nat)
      requires Valid() && peerIndex < |peerSockets|
      modifies this`connectionFlags, peerSockets[peerIndex], kernel
      ensures Valid()
      ensures SlotsValue() == PeerSlots.RemovePeer(old(SlotsValue()), peerIndex)
      ensures kernel.Value() == RemovePeerIn(old(kernel.Value()), old(SlotsValue()), peerIndex)
    {
      var peerSocket := peerSockets[peerIndex];
      connectionFlags := connectionFlags[peerIndex := false];
      peerSocket.Close(kernel);
    }

    method OnClientConnected(peerIndex: nat)
      requires Valid() && peerIndex < |peerSockets|
      modifies this`peerSocketIndexTable, this`interest
      ensures Valid() && Value() == Reactor.OnClientConnected(old(Value()), peerIndex)
    {
      var sd := peerSockets[peerIndex].descriptor;
      peerSocketIndexTable := peerSocketIndexTable[sd := peerIndex];
      interest := interest + {sd};
    }

    method OnClientDisconnected(peerIndex: nat)
      requires Valid() && peerIndex < |peerSockets|
      modifies this`interest, this`connectionFlags, peerSockets[peerIndex], kernel
      ensures Valid() && Value() == Reactor.OnClientDisconnected(old(Value()), peerIndex)
    {
      interest := interest - {peerSockets[peerIndex].descriptor};
      RemovePeer(peerIndex);
    }

    method AcceptNewConnection(accepted: Option<int>)
      requires Valid() && |connectionFlags| <= INT_MAX
      requires accepted.Some? ==> CanAccept(kernel.Value(), accepted.value)
      modifies this, peerSockets, kernel
      ensures Valid() && Value() == Reactor.AcceptNewConnection(old(Value()), accepted)
      ensures forall s :: s in peerSockets ==> s in old(peerSockets) || fresh(s)
    {
      if accepted.Some? {
        var conn := kernel.Accept(accepted.value);
        var peerSocket := new Socket(accepted.value, conn);
        var peerIndex := AddPeer(peerSocket);
        OnClientConnected(peerIndex);
      }
    }

    method HandleClient(peerIndex: nat, input: Input)
      requires Valid() && peerIndex < |peerSockets|
      modifies this`interest, this`connectionFlags, peerSockets[peerIndex], kernel
      ensures Valid() && Value() == Reactor.HandleClient(old(Value()), peerIndex, input)
    {
      var peerSocket := peerSockets[peerIndex];
      if input.read > 0 {
        if CString(input.data) == "quit" {
          OnClientDisconnected(peerIndex);
        }
      } else {
        var lost := peerSocket.IsConnectionLost(input.error);
        if lost {
          OnClientDisconnected(peerIndex);
        }
      }
    }

    /** Reading the table inserts slot 0 for a descriptor it does not know. */
    method LookUp(fd: int) returns (peerIndex: nat)
      requires Valid()
      modifies this`peerSocketIndexTable
      ensures Valid() && Value() == old(Value()).(table := Known(old(Value()), fd))
      ensures peerIndex == Known(old(Value()), fd)[fd]
    {
      if fd !in peerSocketIndexTable {
        peerSocketIndexTable := peerSocketIndexTable[fd := 0];
      }
      peerIndex := peerSocketIndexTable[fd];
    }

    method HandleEvent(e: Event)
      requires Valid() && Inv(Value()) && CanDeliver(Value(), e)
      requires e.fd == acceptor && !e.valid ==> peerSockets != []
      modifies this, peerSockets, kernel
      ensures Valid() && Value() == Reactor.HandleEvent(old(Value()), e)
      ensures forall s :: s in peerSockets ==> s in old(peerSockets) || fresh(s)
    {
      SlotExists(Value(), e);
      var peerIndex := LookUp(e.fd);
      if e.valid {
        if e.fd == acceptor {
          AcceptNewConnection(e.accepted);
        } else {
          HandleClient(peerIndex, e.input);
        }
      } else {
        OnClientDisconnected(peerIndex);
      }
    }

    /** The next event of a batch that was collected in state `start`. */
    method HandleNext(batch: seq<Event>, counter: nat, ghost start: Server)
      requires Valid() && counter < |batch| && Ready(start, batch, counter)
      requires Value() == Reactor.After(start, batch[..counter])
      modifies this, peerSockets, kernel
      ensures Valid() && Value() == Reactor.After(start, batch[..counter + 1])
      ensures forall s :: s in peerSockets ==> s in old(peerSockets) || fresh(s)
    {
      HandleEvent(batch[counter]);
    }

    /** The loop over the batch. */
    method HandleAll(batch: seq<Event>, ghost start: Server)
      requires Valid() && Value() == start
      requires forall k {:trigger Ready(start, batch, k)} :: 0 <= k < |batch| ==> Ready(start, batch, k)
      modifies this, peerSockets, kernel
      ensures Valid() && Value() == Reactor.After(start, batch)
      ensures forall s :: s in peerSockets ==> s in old(peerSockets) || fresh(s)
    {
      var counter := 0;
      assert batch[..0] == [];
      while counter < |batch|
        invariant 0 <= counter <= |batch|
        invariant Valid() && Value() == Reactor.After(start, batch[..counter])
        invariant forall s :: s in peerSockets ==> s in old(peerSockets) || fresh(s)
      {
        assert forall i :: 0 <= i < |peerSockets| ==> peerSockets[i] in old(peerSockets) || fresh(peerSockets[i]);
        HandleNext(batch, counter, start);
        counter := counter + 1;
      }
      assert batch[..|batch|] == batch;
    }

    /** One round of the reactor thread: the events of a batch, in order. */
    method HandleBatch(batch: seq<Event>)
      requires Valid() && Inv(Value()) && Deliverable(Value(), batch)
      modifies this, peerSockets, kernel
      ensures Valid() && Inv(Value()) && Value() == Reactor.After(old(Value()), batch)
      ensures forall s :: s in peerSockets ==> s in old(peerSockets) || fresh(s)
    {
      ghost var start := Value();
      AllReady(start, batch);
      BatchInv(start, batch);
      HandleAll(batch, start);
    }
  }
}
