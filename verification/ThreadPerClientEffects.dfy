/** What the threads of the thread-per-client server do: when a handler disconnects its peer, what a
    whole round of a handler or of the acceptor amounts to, and where every open descriptor belongs. */
module ThreadPerClientEffects {
  import opened ClientInput
  import opened PeerSlots
  import opened ThreadPerClient

  // ----- disconnecting -----

  /** A handler that has received goes on to disconnect its peer if and only if the peer said "quit" or
      the connection is lost, and otherwise to its next round; whatever the other threads do before it
      decides, in state `t`. */
  lemma DisconnectsIff(s: State, h: nat, input: Input, t: State, input': Input)
    requires Inv(s) && h < |s.handlers| && s.handlers[h].pc.UnlockReceive?
    requires Inv(t) && h < |t.handlers| && t.handlers[h] == HandlerNext(s, h, input).handlers[h]
    ensures HandlerNext(s, h, input).lock == Nobody
    ensures var got := s.handlers[h].pc.input;
      HandlerNext(t, h, input').handlers[h].pc == if Quits(got) || Loses(got) then LockRemove else Check
  {
    assert HandlerInv(s, h) && HandlerInv(t, h);
    QuitIsRecognised(s.handlers[h].pc.input.data);
  }

  /** `close` in `removePeer` releases the handler's own descriptor, if the socket is still connected and
      the descriptor is positive, and changes no other. */
  lemma CloseReleases(s: State, h: nat, input: Input)
    requires Inv(s) && h < |s.handlers| && s.handlers[h].pc.Close?
    ensures s.handlers[h].i < |s.slots.socks|
    ensures var s', k := HandlerNext(s, h, input), s.slots.socks[s.handlers[h].i];
      && s'.os.open == (if k.state == CONNECTED && k.fd > 0 then s.os.open - {k.fd} else s.os.open)
      && s'.slots == s.slots.(socks := s.slots.socks[s.handlers[h].i := k.(state := DISCONNECTED)])
  {
    assert HandlerInv(s, h) && SlotInv(s, s.handlers[h].i);
  }

  // ----- a round of a handler -----

  /** Handler `h` runs alone for `n` statements, as long as it can. */
  function HandlerAlone(s: State, h: nat, input: Input, n: nat): State
    decreases n
  {
    if n == 0 || !Can(s, Handle(h, input)) then s else HandlerAlone(Next(s, Handle(h, input)), h, input, n - 1)
  }

  lemma AtTwice(s: State, h: nat, pc: Pc, pc': Pc)
    requires h < |s.handlers|
    ensures At(At(s, h, pc), h, pc') == At(s, h, pc')
    ensures At(s, h, s.handlers[h].pc) == s
  {
    assert s.handlers[h := s.handlers[h]] == s.handlers;
    assert At(At(s, h, pc), h, pc').handlers == At(s, h, pc').handlers;
  }

  function Answering(conn: nat, input: Input): Pc {
    if input.read > 0 then Send(conn, CString(input.data)) else Lost(conn, input.error)
  }

  /** From the test of the stop flag to having received. */
  lemma ReceivesAlone(s: State, h: nat, input: Input, n: nat)
    requires Inv(s) && h < |s.handlers| && s.handlers[h].pc.Check? && !s.stopping && s.lock == Nobody
    ensures HandlerAlone(s, h, input, n + 5) ==
      HandlerAlone(At(s, h, Answering(s.handlers[h].conn, input)), h, input, n)
  {
    assert HandlerInv(s, h);
    var conn := s.handlers[h].conn;
    var s1 := At(s, h, Get);
    var s2 := At(s, h, LockReceive(conn));
    var s3 := At(s, h, Receive(conn)).(lock := HandlerThread(h));
    assert Next(s, Handle(h, input)) == s1;
    assert Next(s1, Handle(h, input)) == s2;
    assert Next(s2, Handle(h, input)) == s3;
    assert HandlerAlone(s, h, input, n + 5) == HandlerAlone(s1, h, input, n + 4);
    assert HandlerAlone(s1, h, input, n + 4) == HandlerAlone(s2, h, input, n + 3);
    assert HandlerAlone(s2, h, input, n + 3) == HandlerAlone(s3, h, input, n + 2);
    LocksAlone(s, h, input, n);
  }

  lemma LocksAlone(s: State, h: nat, input: Input, n: nat)
    requires Inv(s) && h < |s.handlers| && s.handlers[h].pc.Check? && s.lock == Nobody
    ensures var conn := s.handlers[h].conn;
      HandlerAlone(At(s, h, Receive(conn)).(lock := HandlerThread(h)), h, input, n + 2) ==
      HandlerAlone(At(s, h, Answering(conn, input)), h, input, n)
  {
    assert HandlerInv(s, h);
    var conn := s.handlers[h].conn;
    var s3 := At(s, h, Receive(conn)).(lock := HandlerThread(h));
    var s4 := At(s, h, UnlockReceive(conn, input)).(lock := HandlerThread(h));
    var s5 := At(s, h, Answering(conn, input));
    assert Next(s3, Handle(h, input)) == s4;
    assert Next(s4, Handle(h, input)) == s5;
    assert HandlerAlone(s3, h, input, n + 2) == HandlerAlone(s4, h, input, n + 1);
    assert HandlerAlone(s4, h, input, n + 1) == HandlerAlone(s5, h, input, n);
  }

  /** The handler's slot freed and its socket disconnected. */
  function Vacated(s: State, h: nat): Slots
    requires h < |s.handlers| && s.handlers[h].i < |s.slots.flags| == |s.slots.socks|
  {
    var i := s.handlers[h].i;
    Slots(s.slots.flags[i := false], s.slots.socks[i := s.slots.socks[i].(state := DISCONNECTED)])
  }

  /** From deciding to disconnect to having cleared the flag. */
  lemma ClearsAlone(s: State, h: nat, input: Input, n: nat)
    requires Inv(s) && h < |s.handlers| && s.handlers[h].pc.LockRemove? && s.lock == Nobody
    ensures s.handlers[h].i < |s.slots.flags|
    ensures HandlerAlone(s, h, input, n + 2) ==
      HandlerAlone(At(s, h, Close(s.handlers[h].conn)).(
                     lock := HandlerThread(h), slots := s.slots.(flags := s.slots.flags[s.handlers[h].i := false])),
                   h, input, n)
  {
    assert HandlerInv(s, h);
    var cleared := s.slots.(flags := s.slots.flags[s.handlers[h].i := false]);
    var s1 := At(s, h, ClearFlag).(lock := HandlerThread(h));
    var s2 := At(s, h, Close(s.handlers[h].conn)).(lock := HandlerThread(h), slots := cleared);
    assert Next(s, Handle(h, input)) == s1;
    assert Next(s1, Handle(h, input)) == s2;
    assert HandlerAlone(s1, h, input, n + 1) == HandlerAlone(s2, h, input, n);
  }

  /** From there to returning: the socket is closed. */
  lemma ClosesAlone(s: State, h: nat, input: Input, n: nat)
    requires n == 2
    requires h < |s.handlers| && s.handlers[h].pc.Close? && s.handlers[h].i < |s.slots.socks|
    requires var k := s.slots.socks[s.handlers[h].i];
      k.conn == s.handlers[h].pc.p && !s.os.wrong && (k.state != DISCONNECTED ==> OwnsDescriptor(s.os, k))
    ensures var i, k := s.handlers[h].i, s.slots.socks[s.handlers[h].i];
      HandlerAlone(s, h, input, n) == At(s, h, Returned).(
        lock := Nobody,
        slots := s.slots.(socks := s.slots.socks[i := k.(state := DISCONNECTED)]),
        os := if k.state == CONNECTED && k.fd > 0 then s.os.(open := s.os.open - {k.fd}) else s.os)
  {
    var i, k := s.handlers[h].i, s.slots.socks[s.handlers[h].i];
    var slots' := s.slots.(socks := s.slots.socks[i := k.(state := DISCONNECTED)]);
    var os' := if k.state == CONNECTED && k.fd > 0 then s.os.(open := s.os.open - {k.fd}) else s.os;
    var s1 := At(s, h, UnlockRemove).(slots := slots', os := os');
    var s2 := At(s, h, Returned).(lock := Nobody, slots := slots', os := os');
    assert Next(s, Handle(h, input)) == s1;
    assert Next(s1, Handle(h, input)) == s2;
    assert HandlerAlone(s1, h, input, n - 1) == HandlerAlone(s2, h, input, n - 2);
  }

  /** The state after handler `h` has freed its slot and returned, with the descriptors as given. */
  function Left(s: State, h: nat, os: Os): State
    requires h < |s.handlers| && s.handlers[h].i < |s.slots.flags| == |s.slots.socks|
  {
    At(s, h, Returned).(slots := Vacated(s, h), os := os)
  }

  /** From deciding to disconnect to returning. */
  lemma RemovesAlone(s: State, h: nat, input: Input, n: nat)
    requires n == 4
    requires Inv(s) && h < |s.handlers| && s.handlers[h].pc.LockRemove? && s.lock == Nobody
    ensures s.handlers[h].i < |s.slots.flags|
    ensures var k := s.slots.socks[s.handlers[h].i];
      HandlerAlone(s, h, input, n) ==
        Left(s, h, if k.state == CONNECTED && k.fd > 0 then s.os.(open := s.os.open - {k.fd}) else s.os)
  {
    assert HandlerInv(s, h) && SlotInv(s, s.handlers[h].i);
    ClearsAlone(s, h, input, n - 2);
    var cleared := s.slots.(flags := s.slots.flags[s.handlers[h].i := false]);
    var s2 := At(s, h, Close(s.handlers[h].conn)).(lock := HandlerThread(h), slots := cleared);
    ClosesAlone(s2, h, input, n - 2);
    AtTwice(s, h, Close(s.handlers[h].conn), Returned);
  }

  /** The decision itself. */
  lemma DecidesAlone(s: State, h: nat, input: Input, got: Input, n: nat)
    requires Inv(s) && h < |s.handlers| && s.handlers[h].pc == Answering(s.handlers[h].conn, got) && s.lock == Nobody
    ensures s.handlers[h].i < |s.slots.flags|
    ensures HandlerAlone(s, h, input, n + 1) == HandlerAlone(
      if Quits(got) then At(s, h, LockRemove)
      else if Loses(got) then
        At(s, h, LockRemove).(slots := s.slots.(
          socks := s.slots.socks[s.handlers[h].i := s.slots.socks[s.handlers[h].i].(state := DISCONNECTED)]))
      else At(s, h, Check), h, input, n)
  {
    assert HandlerInv(s, h);
    QuitIsRecognised(got.data);
  }

  /** The state after the decision, as far as the slots are concerned. */
  function Decided(s: State, h: nat, input: Input): State
    requires h < |s.handlers| && s.handlers[h].i < |s.slots.flags| == |s.slots.socks|
  {
    var i := s.handlers[h].i;
    if Loses(input) then
      At(s, h, LockRemove).(
        slots := s.slots.(socks := s.slots.socks[i := s.slots.socks[i].(state := DISCONNECTED)]))
    else At(s, h, LockRemove)
  }

  lemma DecidedInv(s: State, h: nat, input: Input)
    requires Inv(s) && h < |s.handlers| && s.handlers[h].pc.Check? && s.lock == Nobody
    requires Quits(input) || Loses(input)
    ensures s.handlers[h].i < |s.slots.flags| && Inv(Decided(s, h, input))
  {
    assert HandlerInv(s, h);
    var conn := s.handlers[h].conn;
    AnsweringInv(s, h, input);
    HandlerKeeps(At(s, h, Answering(conn, input)), h, input);
    AtTwice(s, h, Answering(conn, input), LockRemove);
    QuitIsRecognised(input.data);
  }

  lemma DecidesToLeave(s: State, h: nat, input: Input, n: nat)
    requires Inv(s) && h < |s.handlers| && s.handlers[h].pc.Check? && !s.stopping && s.lock == Nobody
    requires Quits(input) || Loses(input)
    ensures s.handlers[h].i < |s.slots.flags| && Inv(Decided(s, h, input))
    ensures HandlerAlone(s, h, input, n + 6) == HandlerAlone(Decided(s, h, input), h, input, n)
  {
    assert HandlerInv(s, h);
    var conn := s.handlers[h].conn;
    ReceivesAlone(s, h, input, n + 1);
    AnsweringInv(s, h, input);
    DecidesAlone(At(s, h, Answering(conn, input)), h, input, input, n);
    DecidedInv(s, h, input);
    AtTwice(s, h, Answering(conn, input), LockRemove);
  }

  /** The handler leaves, and closes what it has not found lost. */
  lemma LeavingRound(s: State, h: nat, input: Input, n: nat)
    requires n == 10
    requires Inv(s) && h < |s.handlers| && s.handlers[h].pc.Check? && !s.stopping && s.lock == Nobody
    requires Quits(input) || Loses(input)
    ensures s.handlers[h].i < |s.slots.flags|
    ensures var fd := s.slots.socks[s.handlers[h].i].fd;
      HandlerAlone(s, h, input, n) ==
        Left(s, h, if Quits(input) && fd > 0 then s.os.(open := s.os.open - {fd}) else s.os)
  {
    assert HandlerInv(s, h);
    DecidesToLeave(s, h, input, n - 6);
    RemovesAlone(Decided(s, h, input), h, input, n - 6);
    AtTwice(s, h, LockRemove, Returned);
    var i := s.handlers[h].i;
    var socks := s.slots.socks[i := s.slots.socks[i].(state := DISCONNECTED)];
    assert socks[i := socks[i].(state := DISCONNECTED)] == socks;
  }

  lemma IdleRound(s: State, h: nat, input: Input, n: nat)
    requires n == 6
    requires Inv(s) && h < |s.handlers| && s.handlers[h].pc.Check? && !s.stopping && s.lock == Nobody
    requires !Quits(input) && !Loses(input)
    ensures HandlerAlone(s, h, input, n) == s
  {
    assert HandlerInv(s, h);
    var conn := s.handlers[h].conn;
    ReceivesAlone(s, h, input, n - 5);
    AnsweringInv(s, h, input);
    DecidesAlone(At(s, h, Answering(conn, input)), h, input, input, n - 6);
    AtTwice(s, h, Answering(conn, input), Check);
  }

  /** One whole round of a handler that runs alone, with the stop flag clear. If the peer says "quit" the
      handler frees its slot, releases its descriptor, if it is positive, and returns; if the connection
      is lost it does so but leaves the descriptor open; otherwise it is back at its test and nothing has
      changed. The lock is free again in each case. */
  lemma RoundAlone(s: State, h: nat, input: Input, n: nat)
    requires n == if Quits(input) || Loses(input) then 10 else 6
    requires Inv(s) && h < |s.handlers| && s.handlers[h].pc.Check? && !s.stopping && s.lock == Nobody
    ensures s.handlers[h].i < |s.slots.flags|
    ensures var fd := s.slots.socks[s.handlers[h].i].fd;
      && (Quits(input) ==>
            HandlerAlone(s, h, input, n) == Left(s, h, if fd > 0 then s.os.(open := s.os.open - {fd}) else s.os))
      && (Loses(input) ==> HandlerAlone(s, h, input, n) == Left(s, h, s.os))
      && (!Quits(input) && !Loses(input) ==> HandlerAlone(s, h, input, n) == s)
  {
    assert HandlerInv(s, h);
    if Quits(input) || Loses(input) {
      LeavingRound(s, h, input, n);
    } else {
      IdleRound(s, h, input, n);
    }
  }

  lemma AnsweringInv(s: State, h: nat, input: Input)
    requires Inv(s) && h < |s.handlers| && s.handlers[h].pc.Check? && s.lock == Nobody
    ensures Inv(At(s, h, Answering(s.handlers[h].conn, input)))
  {
    assert HandlerInv(s, h);
    HandlerMovesKeeps(s, h, Answering(s.handlers[h].conn, input), s.lock);
  }

  // ----- a round of the acceptor -----

  /** The acceptor runs alone for `n` statements, as long as it can. */
  function AcceptorAlone(s: State, accepted: Option<int>, n: nat): State
    decreases n
  {
    if n == 0 || !Can(s, Acceptor(accepted)) then s
    else AcceptorAlone(Next(s, Acceptor(accepted)), accepted, n - 1)
  }

  /** Once the server is told to stop the acceptor ends at its test, and only then. */
  lemma AcceptorEndsIff(s: State, accepted: Option<int>)
    requires Inv(s) && Can(s, Acceptor(accepted))
    ensures AcceptorNext(s, accepted).acceptor == Ended <==> s.acceptor == Checking && s.stopping
  {
  }

  /** From the test to holding the lock, with a connection accepted. */
  lemma AcceptsAlone(s: State, fd: int, n: nat)
    requires Inv(s) && s.acceptor.Checking? && !s.stopping && s.lock == Nobody && CanAccept(s.os, fd)
    ensures AcceptorAlone(s, Some(fd), n + 3) ==
      AcceptorAlone(s.(os := OsAccept(s.os, fd), lock := AcceptorThread,
                       acceptor := Adding(Sock(fd, CONNECTED, s.os.next))), Some(fd), n)
  {
    var a := Some(fd);
    var s1 := s.(acceptor := Accepting);
    var s2 := s.(os := OsAccept(s.os, fd), acceptor := Locking(Sock(fd, CONNECTED, s.os.next)));
    assert Next(s, Acceptor(a)) == s1;
    assert Next(s1, Acceptor(a)) == s2;
    assert AcceptorAlone(s, a, n + 3) == AcceptorAlone(s1, a, n + 2);
    assert AcceptorAlone(s1, a, n + 2) == AcceptorAlone(s2, a, n + 1);
  }

  /** From there to releasing the lock. */
  lemma AddsAlone(s: State, fd: int, n: nat)
    requires n == 3 && Inv(s) && s.acceptor.Adding?
    ensures var slots', i := AddPeer(s.slots, s.acceptor.peer), FirstFree(s.slots.flags);
      AcceptorAlone(s, Some(fd), n) ==
        s.(slots := slots', lock := Nobody, acceptor := Checking,
           handlers := s.handlers + [Handler(i, s.acceptor.peer.conn, Check)])
  {
    var a := Some(fd);
    var slots', i := AddPeer(s.slots, s.acceptor.peer), FirstFree(s.slots.flags);
    AddPeerSeats(s.slots, s.acceptor.peer);
    AddedSlot(s);
    var handlers' := s.handlers + [Handler(i, s.acceptor.peer.conn, Check)];
    var s1 := s.(slots := slots', acceptor := Creating(i));
    var s2 := s.(slots := slots', handlers := handlers', acceptor := Unlocking);
    assert Next(s, Acceptor(a)) == s1;
    assert Next(s1, Acceptor(a)) == s2;
    assert AcceptorAlone(s, a, n) == AcceptorAlone(s1, a, n - 1);
    assert AcceptorAlone(s1, a, n - 1) == AcceptorAlone(s2, a, n - 2);
    assert AcceptorAlone(s2, a, n - 2) == AcceptorAlone(Next(s2, Acceptor(a)), a, n - 3);
  }

  /** One whole round of the acceptor that runs alone, with the stop flag clear. A connection accepted on
      `fd` is seated in the least free slot, or in a new one, and gets a handler of its own at the start of
      its loop; no other slot, descriptor or handler changes, and the lock is free again. If no connection
      was accepted nothing changes. */
  lemma AcceptorRound(s: State, accepted: Option<int>, n: nat)
    requires Inv(s) && s.acceptor.Checking? && !s.stopping && s.lock == Nobody
    requires accepted.Some? ==> CanAccept(s.os, accepted.value)
    requires n == if accepted.Some? then 6 else 2
    ensures var s' := AcceptorAlone(s, accepted, n);
      match accepted
      case None => s' == s
      case Some(fd) =>
        && s' == s.(slots := s'.slots, os := s'.os, handlers := s'.handlers)
        && s'.os == s.os.(open := s.os.open[fd := s.os.next], next := s.os.next + 1)
        && |s'.handlers| == |s.handlers| + 1
        && var a := s'.handlers[|s.handlers|];
           && s'.handlers == s.handlers + [Handler(a.i, s.os.next, Check)]
           && Seated(s.slots, s'.slots, Sock(fd, CONNECTED, s.os.next), a.i)
  {
    match accepted {
      case None =>
        assert AcceptorAlone(s, accepted, n) == AcceptorAlone(s.(acceptor := Accepting), accepted, n - 1);
        assert AcceptorAlone(s.(acceptor := Accepting), accepted, n - 1) == AcceptorAlone(s, accepted, n - 2);
      case Some(fd) =>
        AcceptsAlone(s, fd, n - 3);
        AddPeerSeats(s.slots, Sock(fd, CONNECTED, s.os.next));
        AddingInv(s, fd);
        var s3 := s.(os := OsAccept(s.os, fd), lock := AcceptorThread,
                     acceptor := Adding(Sock(fd, CONNECTED, s.os.next)));
        AddsAlone(s3, fd, n - 3);
    }
  }

  lemma AddingInv(s: State, fd: int)
    requires Inv(s) && s.acceptor.Checking? && s.lock == Nobody && CanAccept(s.os, fd)
    ensures Inv(s.(os := OsAccept(s.os, fd), lock := AcceptorThread,
                   acceptor := Adding(Sock(fd, CONNECTED, s.os.next))))
  {
    var s1 := s.(acceptor := Accepting);
    AcceptorMovesKeeps(s, Accepting, s.lock);
    AcceptorKeeps(s1, Some(fd));
    AcceptorKeeps(Next(s1, Acceptor(Some(fd))), Some(fd));
  }

  // ----- where every open descriptor belongs -----

  /** Some socket in a slot is still connected on the descriptor. */
  ghost predicate OfSocket(s: State, d: int) {
    exists i :: 0 <= i < |s.slots.socks| && s.slots.socks[i].state == CONNECTED && s.slots.socks[i].fd == d
  }

  /** The descriptor has been accepted, and its peer not added yet. */
  predicate OfNewPeer(s: State, d: int) {
    (s.acceptor.Locking? || s.acceptor.Adding?) && s.acceptor.peer.fd == d
  }

  ghost predicate Kept(s: State, acceptor: int, d: int) {
    d == acceptor || OfSocket(s, d) || OfNewPeer(s, d)
  }

  /** The open descriptors that nobody will ever close. */
  ghost function Abandoned(s: State, acceptor: int): set<int> {
    set d | d in s.os.open && !Kept(s, acceptor, d)
  }

  /** What a move abandons: the descriptor of a connection found lost, and descriptor 0 when its socket is
      closed. */
  function AbandonedAt(s: State, m: Move): set<int> {
    if m.Handle? && m.h < |s.handlers| && s.handlers[m.h].i < |s.slots.socks| then
      var a, k := s.handlers[m.h], s.slots.socks[s.handlers[m.h].i];
      if a.pc.Lost? && a.pc.error in {100, 101, 102, 103, 104} then {k.fd}
      else if a.pc.Close? && k.state == CONNECTED && k.fd == 0 then {0}
      else {}
    else {}
  }

  /** The acceptor's descriptor is its own: every peer's connection has a number above 0. */
  ghost predicate AcceptorOpen(s: State, acceptor: int) {
    && acceptor in s.os.open && s.os.open[acceptor] == 0 && s.os.next > 0
    && (forall d :: d in s.os.open ==> d >= 0)
    && (forall i :: 0 <= i < |s.slots.socks| ==> s.slots.socks[i].conn > 0)
    && (s.acceptor.Locking? || s.acceptor.Adding? ==> s.acceptor.peer.conn > 0)
  }

  /** A connected socket has its descriptor to itself. */
  lemma SocketOwnsAlone(s: State, acceptor: int, i: nat)
    requires Inv(s) && AcceptorOpen(s, acceptor) && i < |s.slots.socks| && s.slots.socks[i].state == CONNECTED
    ensures var d := s.slots.socks[i].fd;
      && d in s.os.open && d != acceptor && !OfNewPeer(s, d)
      && forall j :: 0 <= j < |s.slots.socks| && j != i && s.slots.socks[j].state == CONNECTED ==>
           s.slots.socks[j].fd != d
  {
    assert SlotInv(s, i);
    forall j | 0 <= j < |s.slots.socks| && j != i && s.slots.socks[j].state == CONNECTED
      ensures s.slots.socks[j].fd != s.slots.socks[i].fd
    {
      assert SlotInv(s, j);
    }
  }

  /** Disconnecting the socket of one slot takes its descriptor from it and from nobody else. */
  lemma Disconnected(s: State, acceptor: int, s': State, i: nat, d: int)
    requires Inv(s) && AcceptorOpen(s, acceptor) && i < |s.slots.socks|
    requires s'.slots.socks == s.slots.socks[i := s.slots.socks[i].(state := DISCONNECTED)]
    requires s'.acceptor == s.acceptor
    ensures var k := s.slots.socks[i];
      Kept(s', acceptor, d) <==> Kept(s, acceptor, d) && !(k.state == CONNECTED && k.fd == d)
  {
    var k := s.slots.socks[i];
    if k.state == CONNECTED {
      SocketOwnsAlone(s, acceptor, i);
    }
    if OfSocket(s, d) && !(k.state == CONNECTED && k.fd == d) {
      var j :| 0 <= j < |s.slots.socks| && s.slots.socks[j].state == CONNECTED && s.slots.socks[j].fd == d;
      assert s'.slots.socks[j] == s.slots.socks[j];
    }
    if OfSocket(s', d) {
      var j :| 0 <= j < |s'.slots.socks| && s'.slots.socks[j].state == CONNECTED && s'.slots.socks[j].fd == d;
      assert s'.slots.socks[j] == s.slots.socks[j];
    }
  }

  lemma LostAbandons(s: State, acceptor: int, h: nat, input: Input)
    requires Inv(s) && AcceptorOpen(s, acceptor)
    requires h < |s.handlers| && s.handlers[h].pc.Lost? && LostError(s.handlers[h].pc.error)
    ensures AcceptorOpen(HandlerNext(s, h, input), acceptor)
    ensures Abandoned(HandlerNext(s, h, input), acceptor) == Abandoned(s, acceptor) + AbandonedAt(s, Handle(h, input))
  {
    assert HandlerInv(s, h);
    var s', i := HandlerNext(s, h, input), s.handlers[h].i;
    SocketOwnsAlone(s, acceptor, i);
    forall d | true
      ensures Kept(s', acceptor, d) <==> Kept(s, acceptor, d) && d != s.slots.socks[i].fd
    {
      Disconnected(s, acceptor, s', i, d);
    }
  }

  lemma CloseAbandons(s: State, acceptor: int, h: nat, input: Input)
    requires Inv(s) && AcceptorOpen(s, acceptor) && h < |s.handlers| && s.handlers[h].pc.Close?
    ensures AcceptorOpen(HandlerNext(s, h, input), acceptor)
    ensures Abandoned(HandlerNext(s, h, input), acceptor) == Abandoned(s, acceptor) + AbandonedAt(s, Handle(h, input))
  {
    var s', i := HandlerNext(s, h, input), s.handlers[h].i;
    CloseReleases(s, h, input);
    var k := s.slots.socks[i];
    assert HandlerInv(s, h) && SlotInv(s, i);
    if k.state == CONNECTED {
      SocketOwnsAlone(s, acceptor, i);
    }
    forall d | true
      ensures Kept(s', acceptor, d) <==> Kept(s, acceptor, d) && !(k.state == CONNECTED && k.fd == d)
    {
      Disconnected(s, acceptor, s', i, d);
    }
  }

  lemma AcceptAbandons(s: State, acceptor: int, fd: int)
    requires Inv(s) && AcceptorOpen(s, acceptor) && s.acceptor.Accepting? && CanAccept(s.os, fd)
    ensures AcceptorOpen(AcceptorNext(s, Some(fd)), acceptor)
    ensures Abandoned(AcceptorNext(s, Some(fd)), acceptor) == Abandoned(s, acceptor)
  {
    var s' := AcceptorNext(s, Some(fd));
    forall d | true
      ensures Kept(s', acceptor, d) <==> Kept(s, acceptor, d) || d == fd
    {
      assert OfSocket(s', d) <==> OfSocket(s, d);
    }
  }

  lemma AddAbandons(s: State, acceptor: int)
    requires Inv(s) && AcceptorOpen(s, acceptor) && s.acceptor.Adding?
    ensures AcceptorOpen(AcceptorNext(s, None), acceptor)
    ensures Abandoned(AcceptorNext(s, None), acceptor) == Abandoned(s, acceptor)
  {
    var s', peer, n := AcceptorNext(s, None), s.acceptor.peer, FirstFree(s.slots.flags);
    AddPeerSeats(s.slots, peer);
    AddPeerIsFirstFit(s.slots, peer);
    AddedSlot(s);
    assert n < |s.slots.socks| ==> SlotInv(s, n);
    forall d | true
      ensures Kept(s', acceptor, d) <==> Kept(s, acceptor, d)
    {
      if OfSocket(s, d) {
        var j :| 0 <= j < |s.slots.socks| && s.slots.socks[j].state == CONNECTED && s.slots.socks[j].fd == d;
        assert s'.slots.socks[j] == s.slots.socks[j];
      }
      if OfSocket(s', d) {
        var j :| 0 <= j < |s'.slots.socks| && s'.slots.socks[j].state == CONNECTED && s'.slots.socks[j].fd == d;
        assert j != n ==> s'.slots.socks[j] == s.slots.socks[j];
      }
      assert s'.slots.socks[n] == peer;
    }
  }

  /** All other statements leave sockets, descriptors and the new peer as they are. */
  lemma OthersAbandonNothing(s: State, acceptor: int, m: Move)
    requires Inv(s) && AcceptorOpen(s, acceptor) && Can(s, m)
    requires m.Acceptor? ==> !(s.acceptor.Accepting? && m.accepted.Some?) && !s.acceptor.Adding?
    requires m.Handle? ==>
      var pc := s.handlers[m.h].pc; !pc.Close? && !(pc.Lost? && LostError(pc.error))
    ensures AcceptorOpen(Next(s, m), acceptor)
    ensures Abandoned(Next(s, m), acceptor) == Abandoned(s, acceptor) && AbandonedAt(s, m) == {}
  {
    var s' := Next(s, m);
    assert s'.slots.socks == s.slots.socks && s'.os == s.os;
    forall d | true
      ensures Kept(s', acceptor, d) <==> Kept(s, acceptor, d)
    {
      assert OfSocket(s', d) <==> OfSocket(s, d);
    }
  }

  /** Exactly these moves abandon a descriptor, and none takes an abandoned one away. */
  lemma AbandonedGrows(s: State, acceptor: int, m: Move)
    requires Inv(s) && AcceptorOpen(s, acceptor) && Can(s, m)
    ensures AcceptorOpen(Next(s, m), acceptor)
    ensures Abandoned(Next(s, m), acceptor) == Abandoned(s, acceptor) + AbandonedAt(s, m)
  {
    if m.Handle? && s.handlers[m.h].pc.Close? {
      CloseAbandons(s, acceptor, m.h, m.input);
    } else if m.Handle? && s.handlers[m.h].pc.Lost? && LostError(s.handlers[m.h].pc.error) {
      LostAbandons(s, acceptor, m.h, m.input);
    } else if m.Acceptor? && s.acceptor.Accepting? && m.accepted.Some? {
      AcceptAbandons(s, acceptor, m.accepted.value);
    } else if m.Acceptor? && s.acceptor.Adding? {
      AddAbandons(s, acceptor);
    } else {
      OthersAbandonNothing(s, acceptor, m);
    }
  }

  /** The descriptors abandoned by the first `n` moves of a run. */
  function AbandonedBy(ss: seq<State>, ms: seq<Move>, n: nat): set<int>
    requires n <= |ms| < |ss|
  {
    if n == 0 then {} else AbandonedBy(ss, ms, n - 1) + AbandonedAt(ss[n - 1], ms[n - 1])
  }

  lemma StartAccount(acceptor: int)
    requires acceptor >= 0
    ensures AcceptorOpen(Started(acceptor), acceptor) && Abandoned(Started(acceptor), acceptor) == {}
  {
  }

  lemma {:induction false} RunAbandons(ss: seq<State>, ms: seq<Move>, acceptor: int, k: nat)
    requires IsRun(ss, ms, acceptor) && k < |ss| && acceptor >= 0
    ensures AcceptorOpen(ss[k], acceptor) && Abandoned(ss[k], acceptor) == AbandonedBy(ss, ms, k)
  {
    if k == 0 {
      StartAccount(acceptor);
    } else {
      RunAbandons(ss, ms, acceptor, k - 1);
      RunInv(ss, ms, acceptor, k - 1);
      AbandonedGrows(ss[k - 1], acceptor, ms[k - 1]);
    }
  }

  /** Exact account of the descriptors over every run and every interleaving: what is open is the
      acceptor's, or that of a socket still connected in a slot, or that of a peer accepted and not yet
      added, or was abandoned by one of the moves so far. */
  lemma DescriptorAccount(ss: seq<State>, ms: seq<Move>, acceptor: int, k: nat)
    requires IsRun(ss, ms, acceptor) && k < |ss| && acceptor >= 0
    ensures forall d :: d in ss[k].os.open <==> Kept(ss[k], acceptor, d) || d in AbandonedBy(ss, ms, k)
  {
    RunInv(ss, ms, acceptor, k);
    RunAbandons(ss, ms, acceptor, k);
    var s := ss[k];
    forall d | Kept(s, acceptor, d)
      ensures d in s.os.open
    {
      if OfSocket(s, d) {
        var i :| 0 <= i < |s.slots.socks| && s.slots.socks[i].state == CONNECTED && s.slots.socks[i].fd == d;
        assert SlotInv(s, i);
      }
    }
  }
}
