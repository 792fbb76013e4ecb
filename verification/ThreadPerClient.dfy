/** The thread-per-client server: an acceptor thread and one handler thread for each connection it
    accepts, step by step, with peer slots, descriptors and sockets shared between them.

    A socket object is named by the connection it was made for, so that a handler still holding the
    object that a slot held earlier can be told from one holding the object that is there now. */
module ThreadPerClient {
  import opened Int32
  import opened ClientInput
  import opened PeerSlots

  datatype Owner = Nobody | AcceptorThread | HandlerThread(h: nat)

  /** Where the acceptor thread is in its loop. */
  datatype AcceptorPc =
    | Checking
    | Accepting
    | Locking(peer: Sock)
    | Adding(peer: Sock)
    | Creating(i: nat)
    | Unlocking
    | Ended

  /** Where a handler is in its loop; `p` is the socket object it took from its slot. */
  datatype Pc =
    | Check
    | Get
    | LockReceive(p: nat)
    | Receive(p: nat)
    | UnlockReceive(p: nat, input: Input)
    | Send(p: nat, data: string)
    | Lost(p: nat, error: int)
    | LockRemove
    | ClearFlag
    | Close(p: nat)
    | UnlockRemove
    | Returned
    | Stopped

  /** A handler serves slot `i` and was created for connection `conn`. */
  datatype Handler = Handler(i: nat, conn: nat, pc: Pc)

  /** `fault` records that a handler used a slot that does not exist or a socket object that is gone. */
  datatype State = State(
    slots: Slots,
    os: Os,
    lock: Owner,
    stopping: bool,
    acceptor: AcceptorPc,
    handlers: seq<Handler>,
    fault: bool)

  datatype Move = Stop | Acceptor(accepted: Option<int>) | Handle(h: nat, input: Input)

  // ----- steps -----

  predicate Can(s: State, m: Move) {
    match m
    case Stop => true
    case Acceptor(accepted) =>
      && !s.acceptor.Ended?
      && (s.acceptor.Locking? ==> s.lock == Nobody)
      && (s.acceptor.Accepting? && accepted.Some? ==> CanAccept(s.os, accepted.value))
    case Handle(h, _) =>
      && h < |s.handlers| && !s.handlers[h].pc.Returned? && !s.handlers[h].pc.Stopped?
      && (s.handlers[h].pc.LockReceive? || s.handlers[h].pc.LockRemove? ==> s.lock == Nobody)
  }

  function Next(s: State, m: Move): State
    requires Can(s, m)
  {
    match m
    case Stop => s.(stopping := true)
    case Acceptor(accepted) => AcceptorNext(s, accepted)
    case Handle(h, input) => HandlerNext(s, h, input)
  }

  function AcceptorNext(s: State, accepted: Option<int>): State {
    match s.acceptor
    case Checking => s.(acceptor := if s.stopping then Ended else Accepting)
    case Accepting =>
      if accepted.Some? then
        s.(os := OsAccept(s.os, accepted.value), acceptor := Locking(Sock(accepted.value, CONNECTED, s.os.next)))
      else s.(acceptor := Checking)
    case Locking(peer) => s.(lock := AcceptorThread, acceptor := Adding(peer))
    case Adding(peer) =>
      s.(slots := AddPeer(s.slots, peer), os := AddPeerIn(s.os, s.slots),
         acceptor := Creating(FirstFree(s.slots.flags)))
    case Creating(i) =>
      if i < |s.slots.socks| then
        s.(handlers := s.handlers + [Handler(i, s.slots.socks[i].conn, Check)], acceptor := Unlocking)
      else s.(fault := true)
    case Unlocking => s.(lock := Nobody, acceptor := Checking)
    case Ended => s
  }

  function At(s: State, h: nat, pc: Pc): State
    requires h < |s.handlers|
  {
    s.(handlers := s.handlers[h := s.handlers[h].(pc := pc)])
  }

  /** The socket object `p` is still the one in the handler's slot. */
  predicate Alive(s: State, h: nat, p: nat)
    requires h < |s.handlers|
  {
    s.handlers[h].i < |s.slots.socks| && s.slots.socks[s.handlers[h].i].conn == p
  }

  function HandlerNext(s: State, h: nat, input: Input): State
    requires h < |s.handlers|
  {
    var i := s.handlers[h].i;
    match s.handlers[h].pc
    case Check => At(s, h, if s.stopping then Stopped else Get)
    case Get => if i < |s.slots.socks| then At(s, h, LockReceive(s.slots.socks[i].conn)) else s.(fault := true)
    case LockReceive(p) => At(s, h, Receive(p)).(lock := HandlerThread(h))
    case Receive(p) => if Alive(s, h, p) then At(s, h, UnlockReceive(p, input)) else s.(fault := true)
    case UnlockReceive(p, got) =>
      At(s, h, if got.read > 0 then Send(p, CString(got.data)) else Lost(p, got.error)).(lock := Nobody)
    case Send(p, data) =>
      if Alive(s, h, p) then At(s, h, if data == "quit" then LockRemove else Check) else s.(fault := true)
    case Lost(p, error) =>
      if !Alive(s, h, p) then s.(fault := true)
      else if LostError(error) then
        At(s, h, LockRemove).(slots := s.slots.(socks := s.slots.socks[i := Closed(s.slots.socks[i])]))
      else At(s, h, Check)
    case LockRemove => At(s, h, ClearFlag).(lock := HandlerThread(h))
    case ClearFlag =>
      if i < |s.slots.socks| && i < |s.slots.flags| then
        At(s, h, Close(s.slots.socks[i].conn)).(slots := s.slots.(flags := s.slots.flags[i := false]))
      else s.(fault := true)
    case Close(p) =>
      if Alive(s, h, p) then
        At(s, h, UnlockRemove).(
          slots := s.slots.(socks := s.slots.socks[i := Closed(s.slots.socks[i])]),
          os := CloseIn(s.os, s.slots.socks[i]))
      else s.(fault := true)
    case UnlockRemove => At(s, h, Returned).(lock := Nobody)
    case _ => s
  }

  function Started(acceptor: int): State {
    State(Slots([], []), Os(map[acceptor := 0], 1, false), Nobody, false, Checking, [], false)
  }

  ghost predicate IsRun(ss: seq<State>, ms: seq<Move>, acceptor: int) {
    && |ss| == |ms| + 1 && ss[0] == Started(acceptor)
    && forall k {:trigger ms[k]} :: 0 <= k < |ms| ==> Can(ss[k], ms[k]) && ss[k + 1] == Next(ss[k], ms[k])
  }

  // ----- the invariant -----

  /** The handler still has its slot: it has not cleared the flag. A stopped handler keeps it. */
  predicate Keeps(pc: Pc) {
    !pc.Close? && !pc.UnlockRemove? && !pc.Returned?
  }

  predicate Holds(pc: Pc) {
    pc.Receive? || pc.UnlockReceive? || pc.ClearFlag? || pc.Close? || pc.UnlockRemove?
  }

  predicate AcceptorHolds(pc: AcceptorPc) {
    pc.Adding? || pc.Creating? || pc.Unlocking?
  }

  predicate HasPointer(pc: Pc) {
    pc.LockReceive? || pc.Receive? || pc.UnlockReceive? || pc.Send? || pc.Lost? || pc.Close?
  }

  predicate HandlerInv(s: State, h: nat)
    requires h < |s.handlers|
  {
    var a := s.handlers[h];
    && (Holds(a.pc) <==> s.lock == HandlerThread(h))
    && a.conn < s.os.next
    && (HasPointer(a.pc) ==> a.pc.p == a.conn)
    && (a.pc.Stopped? ==> s.stopping)
    && (Keeps(a.pc) || a.pc.Close? ==>
          && a.i < |s.slots.socks| && a.i < |s.slots.flags|
          && s.slots.socks[a.i].conn == a.conn && s.slots.flags[a.i] == Keeps(a.pc))
    && (Keeps(a.pc) && !a.pc.LockRemove? && !a.pc.ClearFlag? ==> s.slots.socks[a.i].state == CONNECTED)
  }

  /** A connected socket owns its descriptor; a free slot's socket is disconnected, but for the moment
      between clearing the flag and closing. */
  predicate SlotInv(s: State, i: nat)
    requires i < |s.slots.socks| == |s.slots.flags|
  {
    var k := s.slots.socks[i];
    && k.conn < s.os.next
    && (k.state != DISCONNECTED ==> OwnsDescriptor(s.os, k))
    && (!s.slots.flags[i] && k.state != DISCONNECTED ==>
          && s.lock.HandlerThread? && s.lock.h < |s.handlers|
          && s.handlers[s.lock.h].pc.Close? && s.handlers[s.lock.h].i == i)
  }

  ghost predicate AcceptorInv(s: State) {
    && (AcceptorHolds(s.acceptor) <==> s.lock == AcceptorThread)
    && (s.acceptor.Locking? || s.acceptor.Adding? ==>
          && s.acceptor.peer.conn < s.os.next && OwnsDescriptor(s.os, s.acceptor.peer)
          && (forall i :: 0 <= i < |s.slots.socks| ==> s.slots.socks[i].conn != s.acceptor.peer.conn)
          && (forall h :: 0 <= h < |s.handlers| ==> s.handlers[h].conn != s.acceptor.peer.conn))
    && (s.acceptor.Creating? ==>
          && s.acceptor.i < |s.slots.socks| && s.acceptor.i < |s.slots.flags|
          && s.slots.flags[s.acceptor.i] && s.slots.socks[s.acceptor.i].state == CONNECTED
          && forall h :: 0 <= h < |s.handlers| ==> s.handlers[h].conn != s.slots.socks[s.acceptor.i].conn)
  }

  /** Handler `h` is the one of slot `i`. */
  predicate Owns(s: State, h: nat, i: nat) {
    h < |s.handlers| && Keeps(s.handlers[h].pc) && s.handlers[h].i == i
  }

  ghost predicate Owned(s: State, i: nat) {
    exists h: nat :: Owns(s, h, i)
  }

  ghost predicate Inv(s: State) {
    && !s.fault && !s.os.wrong
    && |s.slots.flags| == |s.slots.socks|
    && (s.lock.HandlerThread? ==> s.lock.h < |s.handlers|)
    && AcceptorInv(s)
    && (forall i :: 0 <= i < |s.slots.socks| ==> SlotInv(s, i))
    && (forall i, j :: 0 <= i < j < |s.slots.socks| ==> s.slots.socks[i].conn != s.slots.socks[j].conn)
    && (forall h :: 0 <= h < |s.handlers| ==> HandlerInv(s, h))
    && (forall g, h :: 0 <= g < h < |s.handlers| ==> s.handlers[g].conn != s.handlers[h].conn)
    && (forall i :: 0 <= i < |s.slots.flags| && s.slots.flags[i] ==> Owned(s, i) || s.acceptor == Creating(i))
  }

  lemma OwnedOnward(s: State, s': State, i: nat)
    requires Owned(s, i)
    requires forall h: nat :: Owns(s, h, i) ==> Owns(s', h, i)
    ensures Owned(s', i)
  {
    var h: nat :| Owns(s, h, i);
    assert Owns(s', h, i);
  }

  // ----- the acceptor's steps -----

  lemma AcceptedKeeps(s: State, fd: int)
    requires Inv(s) && s.acceptor.Accepting? && CanAccept(s.os, fd)
    ensures Inv(AcceptorNext(s, Some(fd)))
  {
    var s' := AcceptorNext(s, Some(fd));
    forall i | 0 <= i < |s.slots.socks|
      ensures SlotInv(s', i) && s.slots.socks[i].conn != s.os.next
    {
      assert SlotInv(s, i);
    }
    forall h | 0 <= h < |s.handlers|
      ensures HandlerInv(s', h) && s.handlers[h].conn != s.os.next
    {
      assert HandlerInv(s, h);
    }
    OwnersStay(s, s');
  }

  lemma AddedSlot(s: State)
    requires Inv(s) && s.acceptor.Adding?
    ensures AddPeerIn(s.os, s.slots) == s.os
    ensures forall h :: 0 <= h < |s.handlers| && (Keeps(s.handlers[h].pc) || s.handlers[h].pc.Close?) ==>
      s.handlers[h].i != FirstFree(s.slots.flags)
  {
    var n := FirstFree(s.slots.flags);
    FirstFreeIsLeast(s.slots.flags);
    if n < |s.slots.flags| {
      assert SlotInv(s, n);
    }
    forall h | 0 <= h < |s.handlers| && (Keeps(s.handlers[h].pc) || s.handlers[h].pc.Close?)
      ensures s.handlers[h].i != n
    {
      assert HandlerInv(s, h);
    }
  }

  lemma AddingKeeps(s: State)
    requires Inv(s) && s.acceptor.Adding?
    ensures Inv(AcceptorNext(s, None))
  {
    var s', n, peer := AcceptorNext(s, None), FirstFree(s.slots.flags), s.acceptor.peer;
    FirstFreeIsLeast(s.slots.flags);
    AddPeerIsFirstFit(s.slots, peer);
    AddedSlot(s);
    forall i | 0 <= i < |s'.slots.socks|
      ensures SlotInv(s', i)
    {
      assert i != n ==> SlotInv(s, i);
    }
    forall h | 0 <= h < |s.handlers|
      ensures HandlerInv(s', h)
    {
      assert HandlerInv(s, h);
    }
    forall i | 0 <= i < |s'.slots.flags| && s'.slots.flags[i]
      ensures Owned(s', i) || s'.acceptor == Creating(i)
    {
      if i != n {
        OwnedOnward(s, s', i);
      }
    }
  }

  lemma CreatingKeeps(s: State)
    requires Inv(s) && s.acceptor.Creating?
    ensures Inv(AcceptorNext(s, None))
  {
    var s' := AcceptorNext(s, None);
    assert SlotInv(s, s.acceptor.i);
    forall i | 0 <= i < |s.slots.socks|
      ensures SlotInv(s', i)
    {
      assert SlotInv(s, i);
    }
    forall h | 0 <= h < |s'.handlers|
      ensures HandlerInv(s', h)
    {
      assert h < |s.handlers| ==> HandlerInv(s, h);
    }
    forall i | 0 <= i < |s'.slots.flags| && s'.slots.flags[i]
      ensures Owned(s', i) || s'.acceptor == Creating(i)
    {
      if i == s.acceptor.i {
        assert Owns(s', |s.handlers|, i);
      } else {
        OwnedOnward(s, s', i);
      }
    }
  }

  /** Every slot keeps its owner when no handler gives its slot up. */
  lemma OwnersStay(s: State, s': State)
    requires forall i :: 0 <= i < |s.slots.flags| && s.slots.flags[i] ==> Owned(s, i) || s.acceptor == Creating(i)
    requires s'.slots.flags == s.slots.flags && |s'.handlers| == |s.handlers|
    requires forall h :: 0 <= h < |s.handlers| ==>
      s'.handlers[h].i == s.handlers[h].i && (Keeps(s.handlers[h].pc) ==> Keeps(s'.handlers[h].pc))
    requires s.acceptor.Creating? ==> s'.acceptor == s.acceptor
    ensures forall i :: 0 <= i < |s.slots.flags| && s.slots.flags[i] ==> Owned(s', i) || s'.acceptor == Creating(i)
  {
    forall i | 0 <= i < |s.slots.flags| && s.slots.flags[i] && Owned(s, i)
      ensures Owned(s', i)
    {
      OwnedOnward(s, s', i);
    }
  }

  /** The acceptor tests the flag, gets no connection, or takes or releases the lock. */
  lemma AcceptorMovesKeeps(s: State, pc: AcceptorPc, lock: Owner)
    requires Inv(s) && !s.acceptor.Creating? && !pc.Creating?
    requires lock == s.lock || (s.lock == Nobody && lock == AcceptorThread)
             || (s.lock == AcceptorThread && lock == Nobody)
    requires AcceptorHolds(pc) <==> lock == AcceptorThread
    requires pc.Locking? || pc.Adding? ==> (s.acceptor.Locking? || s.acceptor.Adding?) && pc.peer == s.acceptor.peer
    ensures Inv(s.(acceptor := pc, lock := lock))
  {
    var s' := s.(acceptor := pc, lock := lock);
    forall i | 0 <= i < |s.slots.socks|
      ensures SlotInv(s', i)
    {
      assert SlotInv(s, i);
    }
    forall h | 0 <= h < |s.handlers|
      ensures HandlerInv(s', h)
    {
      assert HandlerInv(s, h);
    }
    OwnersStay(s, s');
  }

  lemma AcceptorKeeps(s: State, accepted: Option<int>)
    requires Inv(s) && Can(s, Acceptor(accepted))
    ensures Inv(AcceptorNext(s, accepted))
  {
    match s.acceptor {
      case Checking => AcceptorMovesKeeps(s, if s.stopping then Ended else Accepting, s.lock);
      case Accepting =>
        if accepted.Some? {
          AcceptedKeeps(s, accepted.value);
        } else {
          AcceptorMovesKeeps(s, Checking, s.lock);
        }
      case Locking(peer) => AcceptorMovesKeeps(s, Adding(peer), AcceptorThread);
      case Adding(_) => AddingKeeps(s);
      case Creating(_) => CreatingKeeps(s);
      case Unlocking => AcceptorMovesKeeps(s, Checking, Nobody);
      case Ended =>
    }
  }

  // ----- the handlers' steps -----

  /** A handler goes on without giving up its slot, perhaps taking or releasing the lock. */
  lemma HandlerMovesKeeps(s: State, h: nat, pc: Pc, lock: Owner)
    requires Inv(s) && h < |s.handlers| && !s.handlers[h].pc.Close? && !pc.Close?
    requires Keeps(s.handlers[h].pc) <==> Keeps(pc)
    requires lock == s.lock || (s.lock == Nobody && lock == HandlerThread(h))
             || (s.lock == HandlerThread(h) && lock == Nobody)
    requires HandlerInv(At(s, h, pc).(lock := lock), h)
    ensures Inv(At(s, h, pc).(lock := lock))
  {
    var s' := At(s, h, pc).(lock := lock);
    forall i | 0 <= i < |s.slots.socks|
      ensures SlotInv(s', i)
    {
      assert SlotInv(s, i);
    }
    forall g | 0 <= g < |s.handlers|
      ensures HandlerInv(s', g)
    {
      assert HandlerInv(s, g) && HandlerInv(s, h);
    }
    OwnersStay(s, s');
  }

  lemma LostKeeps(s: State, h: nat, input: Input)
    requires Inv(s) && h < |s.handlers| && s.handlers[h].pc.Lost? && LostError(s.handlers[h].pc.error)
    ensures Inv(HandlerNext(s, h, input))
  {
    var s' := HandlerNext(s, h, input);
    assert HandlerInv(s, h);
    forall i | 0 <= i < |s.slots.socks|
      ensures SlotInv(s', i)
    {
      assert SlotInv(s, i);
    }
    forall g | 0 <= g < |s.handlers|
      ensures HandlerInv(s', g)
    {
      assert HandlerInv(s, g);
    }
    OwnersStay(s, s');
  }

  lemma ClearFlagKeeps(s: State, h: nat, input: Input)
    requires Inv(s) && h < |s.handlers| && s.handlers[h].pc.ClearFlag?
    ensures Inv(HandlerNext(s, h, input))
  {
    var s' := HandlerNext(s, h, input);
    assert HandlerInv(s, h);
    forall i | 0 <= i < |s.slots.socks|
      ensures SlotInv(s', i)
    {
      assert SlotInv(s, i);
    }
    forall g | 0 <= g < |s.handlers|
      ensures HandlerInv(s', g)
    {
      assert HandlerInv(s, g);
    }
    forall i | 0 <= i < |s'.slots.flags| && s'.slots.flags[i]
      ensures Owned(s', i) || s'.acceptor == Creating(i)
    {
      if Owned(s, i) {
        OwnedOnward(s, s', i);
      }
    }
  }

  /** Closing releases the handler's own descriptor, so every other socket keeps its own. */
  lemma CloseReleasesOwn(s: State, h: nat, k: Sock)
    requires Inv(s) && h < |s.handlers| && s.handlers[h].pc.Close?
    requires OwnsDescriptor(s.os, k) && k.conn != s.handlers[h].conn
    ensures Alive(s, h, s.handlers[h].pc.p)
    ensures var os' := CloseIn(s.os, s.slots.socks[s.handlers[h].i]);
      OwnsDescriptor(os', k) && !os'.wrong && os'.next == s.os.next
  {
    assert HandlerInv(s, h) && SlotInv(s, s.handlers[h].i);
  }

  lemma CloseKeeps(s: State, h: nat, input: Input)
    requires Inv(s) && h < |s.handlers| && s.handlers[h].pc.Close?
    ensures Inv(HandlerNext(s, h, input))
  {
    var s', n := HandlerNext(s, h, input), s.handlers[h].i;
    assert HandlerInv(s, h) && SlotInv(s, n);
    forall i | 0 <= i < |s.slots.socks|
      ensures SlotInv(s', i)
    {
      assert SlotInv(s, i);
      if i != n && s.slots.socks[i].state != DISCONNECTED {
        CloseReleasesOwn(s, h, s.slots.socks[i]);
      }
    }
    forall g | 0 <= g < |s.handlers|
      ensures HandlerInv(s', g)
    {
      assert HandlerInv(s, g);
    }
    if s.acceptor.Locking? {
      CloseReleasesOwn(s, h, s.acceptor.peer);
    }
    OwnersStay(s, s');
  }

  lemma ReceivingKeeps(s: State, h: nat, input: Input)
    requires Inv(s) && Can(s, Handle(h, input)) && !Disconnects(s.handlers[h].pc)
    ensures Inv(HandlerNext(s, h, input))
  {
    assert HandlerInv(s, h);
    var a := s.handlers[h];
    match a.pc {
      case Check => HandlerMovesKeeps(s, h, if s.stopping then Stopped else Get, s.lock);
      case Get => HandlerMovesKeeps(s, h, LockReceive(s.slots.socks[a.i].conn), s.lock);
      case LockReceive(p) => HandlerMovesKeeps(s, h, Receive(p), HandlerThread(h));
      case Receive(p) => HandlerMovesKeeps(s, h, UnlockReceive(p, input), s.lock);
      case _ => AnsweringKeeps(s, h, input);
    }
  }

  lemma AnsweringKeeps(s: State, h: nat, input: Input)
    requires Inv(s) && Can(s, Handle(h, input))
    requires var pc := s.handlers[h].pc; pc.UnlockReceive? || pc.Send? || (pc.Lost? && !LostError(pc.error))
    ensures Inv(HandlerNext(s, h, input))
  {
    assert HandlerInv(s, h);
    match s.handlers[h].pc {
      case UnlockReceive(p, got) =>
        HandlerMovesKeeps(s, h, if got.read > 0 then Send(p, CString(got.data)) else Lost(p, got.error), Nobody);
      case Send(p, data) => HandlerMovesKeeps(s, h, if data == "quit" then LockRemove else Check, s.lock);
      case Lost(p, _) => HandlerMovesKeeps(s, h, Check, s.lock);
    }
  }

  /** The statements from finding a connection lost to returning. */
  predicate Disconnects(pc: Pc) {
    (pc.Lost? && LostError(pc.error)) || pc.LockRemove? || pc.ClearFlag? || pc.Close? || pc.UnlockRemove?
  }

  lemma HandlerKeeps(s: State, h: nat, input: Input)
    requires Inv(s) && Can(s, Handle(h, input))
    ensures Inv(HandlerNext(s, h, input))
  {
    var pc := s.handlers[h].pc;
    assert HandlerInv(s, h);
    if !Disconnects(pc) {
      ReceivingKeeps(s, h, input);
    } else if pc.Lost? {
      LostKeeps(s, h, input);
    } else if pc.LockRemove? {
      HandlerMovesKeeps(s, h, ClearFlag, HandlerThread(h));
    } else if pc.ClearFlag? {
      ClearFlagKeeps(s, h, input);
    } else if pc.Close? {
      CloseKeeps(s, h, input);
    } else {
      HandlerMovesKeeps(s, h, Returned, Nobody);
    }
  }

  lemma StopKeeps(s: State)
    requires Inv(s)
    ensures Inv(s.(stopping := true))
  {
    var s' := s.(stopping := true);
    forall i | 0 <= i < |s.slots.socks|
      ensures SlotInv(s', i)
    {
      assert SlotInv(s, i);
    }
    forall h | 0 <= h < |s.handlers|
      ensures HandlerInv(s', h)
    {
      assert HandlerInv(s, h);
    }
    OwnersStay(s, s');
  }

  lemma {:induction false} RunInv(ss: seq<State>, ms: seq<Move>, acceptor: int, k: nat)
    requires IsRun(ss, ms, acceptor) && k < |ss|
    ensures Inv(ss[k])
  {
    if k > 0 {
      RunInv(ss, ms, acceptor, k - 1);
      match ms[k - 1] {
        case Stop => StopKeeps(ss[k - 1]);
        case Acceptor(accepted) => AcceptorKeeps(ss[k - 1], accepted);
        case Handle(h, input) => HandlerKeeps(ss[k - 1], h, input);
      }
    }
  }

  // ----- what every run keeps -----

  /** In any interleaving no handler uses a socket object after its slot was recycled: what it holds is
      the object made for its own connection, still in its slot, and no `close` releases a descriptor of
      another connection. While it receives, sends or tests the error its connection is still open. */
  lemma NoUseAfterRecycle(ss: seq<State>, ms: seq<Move>, acceptor: int, k: nat)
    requires IsRun(ss, ms, acceptor) && k < |ss|
    ensures !ss[k].fault && !ss[k].os.wrong
    ensures forall h :: 0 <= h < |ss[k].handlers| && HasPointer(ss[k].handlers[h].pc) ==>
      var a := ss[k].handlers[h];
      && a.pc.p == a.conn && Alive(ss[k], h, a.conn)
      && (!a.pc.Close? ==> OwnsDescriptor(ss[k].os, ss[k].slots.socks[a.i]))
  {
    RunInv(ss, ms, acceptor, k);
    var s := ss[k];
    forall h | 0 <= h < |s.handlers| && HasPointer(s.handlers[h].pc)
      ensures Alive(s, h, s.handlers[h].conn) && s.handlers[h].pc.p == s.handlers[h].conn
      ensures !s.handlers[h].pc.Close? ==> OwnsDescriptor(s.os, s.slots.socks[s.handlers[h].i])
    {
      assert HandlerInv(s, h) && SlotInv(s, s.handlers[h].i);
    }
  }

  /** The slot `addPeer` takes belongs to no handler, and destroying its old socket releases nothing. */
  lemma RecycledSlotIsFree(ss: seq<State>, ms: seq<Move>, acceptor: int, k: nat)
    requires IsRun(ss, ms, acceptor) && k < |ss| && ss[k].acceptor.Adding?
    ensures AddPeerIn(ss[k].os, ss[k].slots) == ss[k].os
    ensures forall h :: 0 <= h < |ss[k].handlers| && (Keeps(ss[k].handlers[h].pc) || ss[k].handlers[h].pc.Close?) ==>
      ss[k].handlers[h].i != FirstFree(ss[k].slots.flags)
  {
    RunInv(ss, ms, acceptor, k);
    AddedSlot(ss[k]);
  }

  ghost predicate OneOwner(s: State, i: nat) {
    exists h: nat :: Owns(s, h, i) && forall g: nat :: Owns(s, g, i) ==> g == h
  }

  lemma InvGivesOneOwner(s: State, i: nat)
    requires Inv(s) && i < |s.slots.flags| && s.slots.flags[i] && s.acceptor != Creating(i)
    ensures OneOwner(s, i)
  {
    var h: nat :| Owns(s, h, i);
    forall g: nat | Owns(s, g, i)
      ensures g == h
    {
      assert HandlerInv(s, g) && HandlerInv(s, h);
    }
  }

  /** Every connected slot has exactly one handler, once the acceptor has created it and until it clears
      the flag; and over the whole run no connection gets two. */
  lemma OneHandlerPerSlot(ss: seq<State>, ms: seq<Move>, acceptor: int, k: nat)
    requires IsRun(ss, ms, acceptor) && k < |ss|
    ensures forall i :: 0 <= i < |ss[k].slots.flags| && ss[k].slots.flags[i] && ss[k].acceptor != Creating(i) ==>
      OneOwner(ss[k], i)
    ensures forall h :: 0 <= h < |ss[k].handlers| && Keeps(ss[k].handlers[h].pc) ==>
      ss[k].handlers[h].i < |ss[k].slots.flags| && ss[k].slots.flags[ss[k].handlers[h].i]
    ensures forall g, h :: 0 <= g < h < |ss[k].handlers| ==> ss[k].handlers[g].conn != ss[k].handlers[h].conn
  {
    RunInv(ss, ms, acceptor, k);
    forall i | 0 <= i < |ss[k].slots.flags| && ss[k].slots.flags[i] && ss[k].acceptor != Creating(i)
      ensures OneOwner(ss[k], i)
    {
      InvGivesOneOwner(ss[k], i);
    }
    forall h | 0 <= h < |ss[k].handlers| && Keeps(ss[k].handlers[h].pc)
      ensures ss[k].handlers[h].i < |ss[k].slots.flags| && ss[k].slots.flags[ss[k].handlers[h].i]
    {
      assert HandlerInv(ss[k], h);
    }
  }

  // ----- handlers that are still running -----

  /** A handler of slot `i` that has not returned. */
  ghost predicate Served(s: State, i: nat) {
    exists h: nat :: Owns(s, h, i) && !s.handlers[h].pc.Stopped?
  }

  /** A handler that sees the stop flag leaves without disconnecting its peer. Its slot still has a
      running handler after the test exactly when the flag was clear. */
  lemma ServedAfterCheckIff(ss: seq<State>, ms: seq<Move>, acceptor: int, k: nat, h: nat, input: Input)
    requires IsRun(ss, ms, acceptor) && k < |ss| && h < |ss[k].handlers| && ss[k].handlers[h].pc.Check?
    ensures Served(HandlerNext(ss[k], h, input), ss[k].handlers[h].i) <==> !ss[k].stopping
  {
    RunInv(ss, ms, acceptor, k);
    var s, i := ss[k], ss[k].handlers[h].i;
    var s' := HandlerNext(s, h, input);
    assert Can(s, Handle(h, input)) && HandlerInv(s, h);
    if s.stopping {
      HandlerKeeps(s, h, input);
      assert Owns(s', h, i);
      InvGivesOneOwner(s', i);
    } else {
      assert Owns(s', h, i);
    }
  }

  /** Until the server is told to stop every connected slot has exactly one running handler. */
  lemma ServedUntilStopped(ss: seq<State>, ms: seq<Move>, acceptor: int, k: nat, i: nat)
    requires IsRun(ss, ms, acceptor) && k < |ss| && !ss[k].stopping
    requires i < |ss[k].slots.flags| && ss[k].slots.flags[i] && ss[k].acceptor != Creating(i)
    ensures OneOwner(ss[k], i) && Served(ss[k], i)
  {
    RunInv(ss, ms, acceptor, k);
    InvGivesOneOwner(ss[k], i);
    var h: nat :| Owns(ss[k], h, i);
    assert HandlerInv(ss[k], h);
  }

  /** In general it has one unless its handler has left at the test of the stop flag. */
  lemma ServedIff(ss: seq<State>, ms: seq<Move>, acceptor: int, k: nat, i: nat)
    requires IsRun(ss, ms, acceptor) && k < |ss|
    requires i < |ss[k].slots.flags| && ss[k].slots.flags[i] && ss[k].acceptor != Creating(i)
    ensures Served(ss[k], i) <==>
      forall h :: 0 <= h < |ss[k].handlers| && ss[k].handlers[h].i == i ==> !ss[k].handlers[h].pc.Stopped?
  {
    RunInv(ss, ms, acceptor, k);
    InvGivesOneOwner(ss[k], i);
    var h: nat :| Owns(ss[k], h, i);
    forall g | 0 <= g < |ss[k].handlers| && ss[k].handlers[g].i == i && ss[k].handlers[g].pc.Stopped?
      ensures g == h
    {
      assert Owns(ss[k], g, i);
    }
  }

  /** The move is a handler's test of the stop flag. */
  predicate IsTest(s: State, m: Move) {
    m.Handle? && m.h < |s.handlers| && s.handlers[m.h].pc.Check?
  }

  /** No handler comes to its test after the server was told to stop. */
  ghost predicate NoLateTest(ss: seq<State>, ms: seq<Move>)
    requires |ss| == |ms| + 1
  {
    forall k {:trigger ms[k]} :: 0 <= k < |ms| && IsTest(ss[k], ms[k]) ==> !ss[k].stopping
  }

  ghost predicate AllServed(s: State) {
    forall i :: 0 <= i < |s.slots.flags| && s.slots.flags[i] && s.acceptor != Creating(i) ==> Served(s, i)
  }

  predicate NoneStopped(s: State) {
    forall h :: 0 <= h < |s.handlers| ==> !s.handlers[h].pc.Stopped?
  }

  /** Only a late test stops a handler. */
  lemma MoveStopsNobody(s: State, m: Move)
    requires Can(s, m) && NoneStopped(s) && (IsTest(s, m) ==> !s.stopping)
    ensures NoneStopped(Next(s, m))
  {
  }

  lemma {:induction false} RunStopsNobody(ss: seq<State>, ms: seq<Move>, acceptor: int, k: nat)
    requires IsRun(ss, ms, acceptor) && k < |ss| && NoLateTest(ss, ms)
    ensures NoneStopped(ss[k])
  {
    if k > 0 {
      RunStopsNobody(ss, ms, acceptor, k - 1);
      MoveStopsNobody(ss[k - 1], ms[k - 1]);
    }
  }

  /** A late test leaves the handler's slot connected and without a running handler. */
  lemma LateTestOrphans(ss: seq<State>, ms: seq<Move>, acceptor: int, k: nat)
    requires IsRun(ss, ms, acceptor) && k < |ms| && IsTest(ss[k], ms[k]) && ss[k].stopping
    ensures !AllServed(ss[k + 1])
  {
    var h, i := ms[k].h, ss[k].handlers[ms[k].h].i;
    RunInv(ss, ms, acceptor, k);
    assert HandlerInv(ss[k], h);
    ServedAfterCheckIff(ss, ms, acceptor, k, h, ms[k].input);
    assert ss[k + 1].slots.flags[i] && ss[k + 1].acceptor != Creating(i);
  }

  /** Throughout a run every connected slot has a running handler, if and only if no handler comes to
      its test after the server was told to stop. */
  lemma ServedThroughoutIff(ss: seq<State>, ms: seq<Move>, acceptor: int)
    requires IsRun(ss, ms, acceptor)
    ensures (forall k :: 0 <= k < |ss| ==> AllServed(ss[k])) <==> NoLateTest(ss, ms)
  {
    if NoLateTest(ss, ms) {
      forall k, i | && 0 <= k < |ss| && 0 <= i < |ss[k].slots.flags| && ss[k].slots.flags[i]
                    && ss[k].acceptor != Creating(i)
        ensures Served(ss[k], i)
      {
        RunStopsNobody(ss, ms, acceptor, k);
        ServedIff(ss, ms, acceptor, k, i);
      }
    } else {
      var k :| 0 <= k < |ms| && IsTest(ss[k], ms[k]) && ss[k].stopping;
      LateTestOrphans(ss, ms, acceptor, k);
    }
  }

  /** One client, connected on descriptor 5 when the server is stopped. */
  function StoppedAt(n: nat): State
    requires n <= 8
  {
    var got := Input(-1, 0, "");
    if n == 0 then Started(3)
    else if n == 2 then AcceptorNext(StoppedAt(1), Some(5))
    else if n == 7 then StoppedAt(6).(stopping := true)
    else if n == 8 && |StoppedAt(7).handlers| > 0 then HandlerNext(StoppedAt(7), 0, got)
    else AcceptorNext(StoppedAt(n - 1), None)
  }

  /** A connected slot can be left without a running handler. */
  lemma StoppingLeavesSlot() returns (ss: seq<State>, ms: seq<Move>)
    ensures IsRun(ss, ms, 3)
    ensures var s := ss[|ms|]; s.slots.flags == [true] && s.acceptor != Creating(0) && !Served(s, 0)
  {
    ss := seq(9, n requires 0 <= n < 9 => StoppedAt(n));
    var next := Acceptor(None);
    ms := [next, Acceptor(Some(5)), next, next, next, next, Stop, Handle(0, Input(-1, 0, ""))];
    assert StoppedAt(4).slots == Slots([true], [Sock(5, CONNECTED, 1)]);
    assert StoppedAt(5).handlers == [Handler(0, 1, Check)];
    assert StoppedAt(8).handlers == [Handler(0, 1, Stopped)];
  }
}
