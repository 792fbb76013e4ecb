/** The reactor server: a batch of ready descriptors, a table from descriptors to peer slots, and
    slots and descriptors both recycled while the batch is processed. */
module Reactor {
  import opened Int32
  import opened ClientInput
  import opened PeerSlots

  /** `broken` records an access to a slot that does not exist. */
  datatype Server = Server(
    slots: Slots,
    table: map<int, nat>,
    interest: set<int>,
    os: Os,
    acceptor: int,
    broken: bool)

  /** One ready descriptor: whether the event is valid, what `accept` returns if it is the
      acceptor's, and what `receive` returns if it is a client's. */
  datatype Event = Event(fd: int, valid: bool, accepted: Option<int>, input: Input)

  // ----- the server's functions -----

  function OnClientConnected(r: Server, i: nat): Server
    requires i < |r.slots.socks|
  {
    var fd := r.slots.socks[i].fd;
    r.(table := r.table[fd := i], interest := r.interest + {fd})
  }

  function OnClientDisconnected(r: Server, i: nat): Server {
    if i < |r.slots.socks| && i < |r.slots.flags| then
      r.(interest := r.interest - {r.slots.socks[i].fd},
         slots := RemovePeer(r.slots, i),
         os := RemovePeerIn(r.os, r.slots, i))
    else r.(broken := true)
  }

  /** `accept` wraps the new descriptor in a connected socket; the slot it takes is the first free. */
  function AcceptNewConnection(r: Server, accepted: Option<int>): Server {
    match accepted
    case None => r
    case Some(fd) =>
      var peer := Sock(fd, CONNECTED, r.os.next);
      var os := OsAccept(r.os, fd);
      var i := FirstFree(r.slots.flags);
      var r' := r.(slots := AddPeer(r.slots, peer), os := AddPeerIn(os, r.slots));
      if i < |r'.slots.socks| then OnClientConnected(r', i) else r'.(broken := true)
  }

  /** `isConnectionLost` disconnects the socket object before `close` can release its descriptor. */
  function MarkLost(r: Server, i: nat): Server {
    if i < |r.slots.socks| then
      r.(slots := r.slots.(socks := r.slots.socks[i := Closed(r.slots.socks[i])]))
    else r.(broken := true)
  }

  function HandleClient(r: Server, i: nat, input: Input): Server {
    if i >= |r.slots.socks| then r.(broken := true)
    else if input.read > 0 then
      if CString(input.data) == "quit" then OnClientDisconnected(r, i) else r
    else if LostError(input.error) then OnClientDisconnected(MarkLost(r, i), i)
    else r
  }

  /** Reading the table inserts slot 0 for a descriptor it does not know. */
  function Known(r: Server, fd: int): map<int, nat> {
    if fd in r.table then r.table else r.table[fd := 0]
  }

  function HandleEvent(r: Server, e: Event): Server {
    var table := Known(r, e.fd);
    var i := table[e.fd];
    var r' := r.(table := table);
    if !e.valid then OnClientDisconnected(r', i)
    else if e.fd == r.acceptor then AcceptNewConnection(r', e.accepted)
    else HandleClient(r', i, e.input)
  }

  /** The server after the first events of a batch. */
  function After(r: Server, batch: seq<Event>): Server
    decreases |batch|
  {
    if batch == [] then r else HandleEvent(After(r, batch[..|batch| - 1]), batch[|batch| - 1])
  }

  // ----- the invariant -----

  /** The slot that a descriptor leads to is connected and owns it. */
  predicate Leads(r: Server, fd: int) {
    && fd in r.table && r.table[fd] < |r.slots.flags| == |r.slots.socks|
    && r.slots.flags[r.table[fd]] && r.slots.socks[r.table[fd]].fd == fd
  }

  ghost predicate Inv(r: Server) {
    && !r.broken && !r.os.wrong
    && SlotsInv(r.slots, r.os) && |r.slots.flags| <= INT_MAX
    && (forall d :: d in r.os.open ==> 0 <= d <= INT_MAX)
    && r.acceptor in r.os.open && r.acceptor in r.interest
    && (r.acceptor in r.table ==> r.table[r.acceptor] == 0)
    && (forall i :: 0 <= i < |r.slots.socks| ==> r.slots.socks[i].fd != r.acceptor)
    && (forall i :: 0 <= i < |r.slots.flags| && r.slots.flags[i] ==> IndexAgrees(r, i))
    && (forall d :: d in r.interest && d != r.acceptor ==> Leads(r, d))
  }

  /** The table and the listener know the connected slot `i` by its descriptor. */
  predicate IndexAgrees(r: Server, i: nat) {
    && i < |r.slots.socks|
    && var fd := r.slots.socks[i].fd;
       fd != r.acceptor && fd in r.table && r.table[fd] == i && fd in r.interest
  }

  /** What the environment may deliver next. */
  predicate CanDeliver(r: Server, e: Event) {
    && e.fd in r.interest
    && (e.accepted.Some? ==> CanAccept(r.os, e.accepted.value))
  }

  lemma DisconnectKeeps(r: Server, i: nat)
    requires Inv(r) && i < |r.slots.flags| && r.slots.flags[i]
    ensures Inv(OnClientDisconnected(r, i))
  {
    RemovePeerKeeps(r.slots, r.os, i);
    var r' := OnClientDisconnected(r, i);
    forall j | 0 <= j < |r'.slots.flags| && r'.slots.flags[j]
      ensures IndexAgrees(r', j)
    {
      assert IndexAgrees(r, j) && IndexAgrees(r, i);
    }
    forall d | d in r'.interest && d != r'.acceptor
      ensures Leads(r', d)
    {
      assert Leads(r, d);
    }
  }

  /** A lost connection: the slot is freed and its descriptor stays open, owned by nobody's slot. */
  lemma LostKeeps(r: Server, i: nat)
    requires Inv(r) && i < |r.slots.flags| && r.slots.flags[i]
    ensures var r' := OnClientDisconnected(MarkLost(r, i), i);
      && Inv(r') && r'.os == r.os
      && r'.slots == RemovePeer(r.slots, i) && r'.interest == r.interest - {r.slots.socks[i].fd}
  {
    var r' := OnClientDisconnected(MarkLost(r, i), i);
    assert r'.slots.socks == r.slots.socks[i := Closed(r.slots.socks[i])];
    forall j | 0 <= j < |r'.slots.flags| && r'.slots.flags[j]
      ensures IndexAgrees(r', j)
    {
      assert IndexAgrees(r, j) && IndexAgrees(r, i);
    }
    forall d | d in r'.interest && d != r'.acceptor
      ensures Leads(r', d)
    {
      assert Leads(r, d);
    }
  }

  /** The new descriptor leads to the new slot, and every other one where it led before. */
  lemma AcceptLeads(r: Server, fd: int, d: int)
    requires Inv(r) && CanAccept(r.os, fd) && d != r.acceptor
    ensures Leads(AcceptNewConnection(r, Some(fd)), d) <==> Leads(r, d) || d == fd
  {
    var r', i := AcceptNewConnection(r, Some(fd)), FirstFree(r.slots.flags);
    FirstFreeIsLeast(r.slots.flags);
    AddPeerIsFirstFit(r.slots, Sock(fd, CONNECTED, r.os.next));
    AddPeerKeeps(r.slots, r.os, fd);
    if Leads(r, d) {
      assert OwnsDescriptor(r.os, r.slots.socks[r.table[d]]);
    }
  }

  /** Accepting a peer leaves every slot in agreement with the table, the new one included. */
  lemma AcceptIndexes(r: Server, fd: int, j: nat)
    requires Inv(r) && CanAccept(r.os, fd)
    requires var r' := AcceptNewConnection(r, Some(fd)); j < |r'.slots.flags| && r'.slots.flags[j]
    ensures IndexAgrees(AcceptNewConnection(r, Some(fd)), j)
  {
    FirstFreeIsLeast(r.slots.flags);
    assert j != FirstFree(r.slots.flags) ==> IndexAgrees(r, j);
  }

  lemma AcceptKeeps(r: Server, fd: int)
    requires Inv(r) && CanAccept(r.os, fd)
    ensures var r' := AcceptNewConnection(r, Some(fd));
      Inv(r') && r'.os == OsAccept(r.os, fd) && r'.interest == r.interest + {fd}
  {
    FirstFreeIsLeast(r.slots.flags);
    AddPeerKeeps(r.slots, r.os, fd);
    assert forall i :: 0 <= i < |r.slots.flags| && r.slots.flags[i] ==> IndexAgrees(r, i);
    SlotNumbersFit(r.slots, r.os, r.acceptor, fd);
    var r' := AcceptNewConnection(r, Some(fd));
    forall j | 0 <= j < |r'.slots.flags| && r'.slots.flags[j]
      ensures IndexAgrees(r', j)
    {
      AcceptIndexes(r, fd, j);
    }
    forall d | d in r'.interest && d != r'.acceptor
      ensures Leads(r', d)
    {
      AcceptLeads(r, fd, d);
    }
  }

  /** Accepting a peer leaves every descriptor of the listener with its slot. */
  lemma AcceptDisturbsNobody(r: Server, fd: int, d: int)
    requires Inv(r) && CanAccept(r.os, fd) && d in r.interest && d != r.acceptor
    ensures var r' := AcceptNewConnection(r, Some(fd));
      && Leads(r, d) && Leads(r', d)
      && r'.table[d] == r.table[d] && r'.slots.socks[r.table[d]] == r.slots.socks[r.table[d]]
  {
    AddPeerIsFirstFit(r.slots, Sock(fd, CONNECTED, r.os.next));
    assert Leads(r, d) && IndexAgrees(r, r.table[d]);
  }

  // ----- one event -----

  /** The connection behind descriptor `d` is served by the same slot as before. */
  predicate Undisturbed(r: Server, r': Server, d: int) {
    && d in r'.interest && d in r.os.open && d in r'.os.open && r'.os.open[d] == r.os.open[d]
    && (d != r.acceptor ==>
          && Leads(r, d) && Leads(r', d)
          && r'.table[d] == r.table[d] && r'.slots.socks[r.table[d]] == r.slots.socks[r.table[d]])
  }

  lemma RememberKeeps(r: Server, fd: int)
    requires Inv(r) && fd in r.interest
    ensures var r' := r.(table := Known(r, fd));
      && Inv(r') && (fd != r.acceptor ==> r' == r && Leads(r, fd))
      && (forall d :: d in r.interest ==> Undisturbed(r, r', d))
  {
    var r' := r.(table := Known(r, fd));
    forall d | d in r.interest
      ensures Undisturbed(r, r', d)
    {
      assert d != r.acceptor ==> Leads(r, d);
    }
    forall j | 0 <= j < |r.slots.flags| && r.slots.flags[j]
      ensures IndexAgrees(r', j)
    {
      assert IndexAgrees(r, j);
    }
    forall d | d in r.interest && d != r.acceptor
      ensures Leads(r', d)
    {
      assert Leads(r, d);
    }
  }

  /** Freeing the slot that `fd` leads to concerns no other descriptor. */
  lemma OthersUndisturbed(r: Server, r': Server, fd: int)
    requires Inv(r) && Leads(r, fd) && fd != r.acceptor
    requires r'.slots == RemovePeer(r.slots, r.table[fd]) && r'.interest == r.interest - {fd} && r'.table == r.table
    requires r'.os == r.os || r'.os == r.os.(open := r.os.open - {fd})
    ensures forall d :: d in r.interest && d != fd ==> Undisturbed(r, r', d)
  {
    forall d | d in r.interest && d != fd
      ensures Undisturbed(r, r', d)
    {
      assert d != r.acceptor ==> Leads(r, d);
    }
  }

  /** What a client's event does: it frees the slot its descriptor leads to, or nothing. */
  lemma ClientEventKeeps(r: Server, e: Event)
    requires Inv(r) && CanDeliver(r, e) && e.fd != r.acceptor
    ensures Leads(r, e.fd) && Inv(HandleEvent(r, e))
    ensures forall d :: d in r.interest && d != e.fd ==> Undisturbed(r, HandleEvent(r, e), d)
  {
    RememberKeeps(r, e.fd);
    var i := r.table[e.fd];
    DisconnectKeeps(r, i);
    RemovePeerKeeps(r.slots, r.os, i);
    LostKeeps(r, i);
    OthersUndisturbed(r, OnClientDisconnected(r, i), e.fd);
    OthersUndisturbed(r, OnClientDisconnected(MarkLost(r, i), i), e.fd);
  }

  /** What the acceptor's valid event does: it adds a peer, or nothing. */
  lemma AcceptEventKeeps(r: Server, e: Event)
    requires Inv(r) && CanDeliver(r, e) && e.fd == r.acceptor && e.valid
    ensures Inv(HandleEvent(r, e))
    ensures forall d :: d in r.interest ==> Undisturbed(r, HandleEvent(r, e), d)
  {
    RememberKeeps(r, e.fd);
    var r1 := r.(table := Known(r, e.fd));
    if e.accepted.Some? {
      var fd := e.accepted.value;
      AcceptKeeps(r1, fd);
      forall d | d in r.interest
        ensures Undisturbed(r, HandleEvent(r, e), d)
      {
        if d != r.acceptor {
          AcceptDisturbsNobody(r1, fd, d);
        }
        assert Undisturbed(r, r1, d);
      }
    }
  }

  lemma EventKeeps(r: Server, e: Event)
    requires Inv(r) && CanDeliver(r, e) && (e.fd == r.acceptor ==> e.valid)
    ensures Inv(HandleEvent(r, e)) && HandleEvent(r, e).acceptor == r.acceptor
    ensures forall d :: d in r.interest && d != e.fd ==> Undisturbed(r, HandleEvent(r, e), d)
  {
    if e.fd == r.acceptor {
      AcceptEventKeeps(r, e);
    } else {
      ClientEventKeeps(r, e);
    }
  }

  lemma UndisturbedOnward(r0: Server, r: Server, r': Server, d: int)
    requires Undisturbed(r0, r, d) && Undisturbed(r, r', d) && r.acceptor == r0.acceptor
    ensures Undisturbed(r0, r', d)
  {
  }

  // ----- what events do -----

  /** The slot that `fd` leads to is free, its socket disconnected, and the listener has forgotten `fd`;
      everything else in the server is as it was. */
  predicate Freed(r: Server, r': Server, fd: int)
    requires Leads(r, fd)
  {
    var i := r.table[fd];
    && r'.slots.flags == r.slots.flags[i := false]
    && r'.slots.socks == r.slots.socks[i := Sock(fd, DISCONNECTED, r.slots.socks[i].conn)]
    && r'.interest == r.interest - {fd}
    && r'.table == r.table && r'.acceptor == r.acceptor && r'.broken == r.broken
  }

  /** What a client's event does, in every state: an invalid event and "quit" free the slot and release
      the descriptor, if it is positive; one of the five connection errors frees the slot and leaves the
      descriptor open; anything else changes nothing. */
  lemma ClientEventEffect(r: Server, e: Event)
    requires Inv(r) && CanDeliver(r, e) && e.fd != r.acceptor
    ensures Leads(r, e.fd)
    ensures var r' := HandleEvent(r, e);
      if !e.valid || Quits(e.input) then
        && Freed(r, r', e.fd)
        && r'.os.open == (if e.fd > 0 then r.os.open - {e.fd} else r.os.open)
      else if Loses(e.input) then
        Freed(r, r', e.fd) && r'.os.open == r.os.open
      else r' == r
  {
    RememberKeeps(r, e.fd);
    QuitIsRecognised(e.input.data);
    RemovePeerKeeps(r.slots, r.os, r.table[e.fd]);
    LostKeeps(r, r.table[e.fd]);
  }

  /** What a valid event of the acceptor does: if a connection was accepted, its peer is in the least
      free slot, or in a new one, and the table and the listener know its descriptor; every other slot,
      table entry and descriptor is as it was. If none was, nothing changes but the table's entry for
      the acceptor. */
  lemma AcceptorEventEffect(r: Server, e: Event)
    requires Inv(r) && CanDeliver(r, e) && e.fd == r.acceptor && e.valid
    ensures var r' := HandleEvent(r, e);
      match e.accepted
      case None => r' == r.(table := r'.table)
      case Some(fd) =>
        && r'.os.open == r.os.open[fd := r.os.next] && r'.interest == r.interest + {fd}
        && fd in r'.table && Seated(r.slots, r'.slots, Sock(fd, CONNECTED, r.os.next), r'.table[fd])
    ensures forall d :: d in r.table && Some(d) != e.accepted ==>
      d in HandleEvent(r, e).table && HandleEvent(r, e).table[d] == r.table[d]
  {
    RememberKeeps(r, e.fd);
    var r1, r' := r.(table := Known(r, e.fd)), HandleEvent(r, e);
    if e.accepted.Some? {
      var fd := e.accepted.value;
      AcceptKeeps(r1, fd);
      AddPeerSeats(r.slots, Sock(fd, CONNECTED, r.os.next));
    }
  }

  // ----- batches -----

  /** Distinct ready descriptors; the acceptor's events valid; every accepted descriptor one that was
      not open at that moment, so possibly one closed earlier in the batch. */
  ghost predicate Deliverable(r: Server, batch: seq<Event>) {
    && (forall j, k :: 0 <= j < k < |batch| ==> batch[j].fd != batch[k].fd)
    && (forall k :: 0 <= k < |batch| ==> batch[k].fd in r.interest && (batch[k].fd == r.acceptor ==> batch[k].valid))
    && (forall k {:trigger After(r, batch[..k])} :: 0 <= k < |batch| && batch[k].accepted.Some? ==>
          CanAccept(After(r, batch[..k]).os, batch[k].accepted.value))
  }

  ghost predicate KeptFor(r0: Server, r: Server, coming: seq<Event>) {
    && Inv(r) && r.acceptor == r0.acceptor
    && forall j :: 0 <= j < |coming| ==> Undisturbed(r0, r, coming[j].fd)
  }

  lemma KeptOnward(r0: Server, r: Server, coming: seq<Event>)
    requires KeptFor(r0, r, coming) && coming != []
    requires CanDeliver(r, coming[0]) && (coming[0].fd == r.acceptor ==> coming[0].valid)
    requires forall j :: 1 <= j < |coming| ==> coming[j].fd != coming[0].fd
    ensures KeptFor(r0, HandleEvent(r, coming[0]), coming[1..])
  {
    var r' := HandleEvent(r, coming[0]);
    EventKeeps(r, coming[0]);
    forall j | 1 <= j < |coming|
      ensures Undisturbed(r0, r', coming[j].fd)
    {
      UndisturbedOnward(r0, r, r', coming[j].fd);
    }
  }

  lemma KeptAtStart(r: Server, batch: seq<Event>)
    requires Inv(r) && Deliverable(r, batch)
    ensures KeptFor(r, r, batch)
  {
    forall j | 0 <= j < |batch|
      ensures Undisturbed(r, r, batch[j].fd)
    {
      assert batch[j].fd != r.acceptor ==> Leads(r, batch[j].fd);
    }
  }

  /** After the first `k` events every descriptor still to come is served as it was at the start. */
  lemma {:induction false} BatchKeeps(r: Server, batch: seq<Event>, k: nat)
    requires Inv(r) && Deliverable(r, batch) && k <= |batch|
    ensures KeptFor(r, After(r, batch[..k]), batch[k..])
  {
    if k == 0 {
      assert batch[..0] == [] && batch[0..] == batch;
      KeptAtStart(r, batch);
    } else {
      BatchKeeps(r, batch, k - 1);
      assert batch[..k][..k - 1] == batch[..k - 1];
      assert batch[k - 1..][1..] == batch[k..];
      var before := After(r, batch[..k - 1]);
      assert Undisturbed(r, before, batch[k - 1..][0].fd);
      KeptOnward(r, before, batch[k - 1..]);
    }
  }

  /** What the loop over a batch relies on when it comes to event `k`. */
  lemma NextInBatch(r: Server, batch: seq<Event>, k: nat)
    requires Inv(r) && Deliverable(r, batch) && k < |batch|
    ensures Ready(r, batch, k)
  {
    BatchKeeps(r, batch, k);
    assert Undisturbed(r, After(r, batch[..k]), batch[k..][0].fd);
    assert batch[..k + 1][..k] == batch[..k];
  }

  /** Event `k` can be handled in the state that the events before it lead to. */
  ghost predicate Ready(r: Server, batch: seq<Event>, k: nat)
    requires k < |batch|
  {
    var now := After(r, batch[..k]);
    && Inv(now) && CanDeliver(now, batch[k]) && (batch[k].fd == now.acceptor ==> batch[k].valid)
    && After(r, batch[..k + 1]) == HandleEvent(now, batch[k])
  }

  lemma AllReady(r: Server, batch: seq<Event>)
    requires Inv(r) && Deliverable(r, batch)
    ensures forall k {:trigger Ready(r, batch, k)} :: 0 <= k < |batch| ==> Ready(r, batch, k)
  {
    forall k | 0 <= k < |batch|
      ensures Ready(r, batch, k)
    {
      NextInBatch(r, batch, k);
    }
  }

  /** While a batch is processed, with earlier events closing peers and accepting new ones on recycled
      descriptors, each client's event reaches the connected slot whose connection owned the descriptor
      when the batch was collected, and still owns it. */
  lemma EventReachesOwner(r: Server, batch: seq<Event>, k: nat)
    requires Inv(r) && Deliverable(r, batch) && k < |batch| && batch[k].fd != r.acceptor
    ensures var now, fd := After(r, batch[..k]), batch[k].fd;
      && fd in now.table && now.table[fd] < |now.slots.flags| && now.table[fd] < |now.slots.socks|
      && now.slots.flags[now.table[fd]]
      && fd in r.os.open && fd in now.os.open && now.os.open[fd] == r.os.open[fd]
      && now.slots.socks[now.table[fd]] == Sock(fd, CONNECTED, r.os.open[fd])
  {
    BatchKeeps(r, batch, k);
    assert Undisturbed(r, After(r, batch[..k]), batch[k..][0].fd);
  }

  lemma BatchInv(r: Server, batch: seq<Event>)
    requires Inv(r) && Deliverable(r, batch)
    ensures Inv(After(r, batch)) && After(r, batch).acceptor == r.acceptor
  {
    BatchKeeps(r, batch, |batch|);
    assert batch[..|batch|] == batch;
  }

  // ----- runs of the server -----

  function Started(acceptor: int): Server {
    Server(Slots([], []), map[], {acceptor}, Os(map[acceptor := 0], 1, false), acceptor, false)
  }

  ghost predicate IsRun(rs: seq<Server>, batches: seq<seq<Event>>, acceptor: int) {
    && |rs| == |batches| + 1
    && 0 <= acceptor <= INT_MAX && rs[0] == Started(acceptor)
    && forall k {:trigger batches[k]} :: 0 <= k < |batches| ==>
         Deliverable(rs[k], batches[k]) && rs[k + 1] == After(rs[k], batches[k])
  }

  lemma {:induction false} RunInv(rs: seq<Server>, batches: seq<seq<Event>>, acceptor: int, k: nat)
    requires IsRun(rs, batches, acceptor) && k < |rs|
    ensures Inv(rs[k])
  {
    if k > 0 {
      RunInv(rs, batches, acceptor, k - 1);
      BatchInv(rs[k - 1], batches[k - 1]);
    }
  }

  /** Over every run, on the quit, lost and invalid-event paths alike: free slots hold disconnected
      sockets, so that neither closing a peer nor destroying a socket on reuse ever releases a
      descriptor that belongs to another connection; and no slot is accessed that does not exist. */
  lemma NeverClosesForeignDescriptor(rs: seq<Server>, batches: seq<seq<Event>>, acceptor: int, k: nat, fd: int)
    requires IsRun(rs, batches, acceptor) && k < |rs|
    ensures !rs[k].os.wrong && !rs[k].broken
    ensures |rs[k].slots.flags| == |rs[k].slots.socks|
    ensures forall i :: 0 <= i < |rs[k].slots.flags| && !rs[k].slots.flags[i] ==>
      rs[k].slots.socks[i].state == DISCONNECTED
    ensures CanAccept(rs[k].os, fd) ==> AddPeerIn(OsAccept(rs[k].os, fd), rs[k].slots) == OsAccept(rs[k].os, fd)
  {
    RunInv(rs, batches, acceptor, k);
    if CanAccept(rs[k].os, fd) {
      AddPeerKeeps(rs[k].slots, rs[k].os, fd);
    }
  }

  // ----- an invalid event of the acceptor -----

  /** The event is handled without touching a slot that does not exist and without disturbing any
      connection but its own. */
  ghost predicate HandledRight(r: Server, e: Event) {
    && !HandleEvent(r, e).broken
    && forall d :: d in r.interest && d != e.fd ==> Undisturbed(r, HandleEvent(r, e), d)
  }

  lemma AcceptorError(r: Server, e: Event)
    requires Inv(r) && CanDeliver(r, e) && e.fd == r.acceptor && !e.valid
    ensures HandledRight(r, e) <==> r.slots.socks != [] && r.slots.socks[0].fd !in r.interest
  {
    var r1, r' := r.(table := Known(r, e.fd)), HandleEvent(r, e);
    RememberKeeps(r, e.fd);
    if r.slots.socks != [] {
      var fd := r.slots.socks[0].fd;
      if fd in r.interest {
        assert !Undisturbed(r, r', fd);
      } else {
        assert !r.slots.flags[0];
        assert r'.slots.flags == r.slots.flags && r'.slots.socks == r.slots.socks;
        forall d | d in r.interest && d != e.fd
          ensures Undisturbed(r, r', d)
        {
          assert Undisturbed(r, r1, d);
        }
      }
    }
  }

  /** Exactly when an event is handled right. The acceptor has no slot, and the table answers 0 for
      it: an error event of the acceptor is handled as slot 0's. It does no harm only if slot 0 exists
      and the listener does not know its descriptor. */
  lemma HandledRightIff(r: Server, e: Event)
    requires Inv(r) && CanDeliver(r, e)
    ensures HandledRight(r, e) <==>
      (e.fd == r.acceptor && !e.valid ==> r.slots.socks != [] && r.slots.socks[0].fd !in r.interest)
  {
    if e.fd == r.acceptor && !e.valid {
      AcceptorError(r, e);
    } else {
      EventKeeps(r, e);
    }
  }

  /** In particular it disconnects the peer in slot 0, if there is one. */
  lemma AcceptorErrorDropsPeerZero(r: Server, e: Event)
    requires Inv(r) && CanDeliver(r, e) && e.fd == r.acceptor && !e.valid
    requires r.slots.flags != [] && r.slots.flags[0]
    ensures HandleEvent(r, e).slots == RemovePeer(r.slots, 0)
    ensures !HandledRight(r, e)
  {
    assert IndexAgrees(r, 0);
    AcceptorError(r, e);
  }

  /** A run of the server comes to that: one client has connected, and the acceptor reports an error. */
  lemma AcceptorErrorReached() returns (rs: seq<Server>, batches: seq<seq<Event>>, e: Event)
    ensures IsRun(rs, batches, 3) && Inv(rs[|batches|]) && CanDeliver(rs[|batches|], e)
    ensures rs[|batches|].slots == Slots([true], [Sock(5, CONNECTED, 1)])
    ensures HandleEvent(rs[|batches|], e).slots == Slots([false], [Sock(5, DISCONNECTED, 1)])
    ensures !HandledRight(rs[|batches|], e)
  {
    var nothing := Input(-1, 0, "");
    var connect := Event(3, true, Some(5), nothing);
    var s0 := Started(3);
    assert [connect][..0] == [];
    var s1 := HandleEvent(s0, connect);
    assert s1 == After(s0, [connect]);
    rs, batches := [s0, s1], [[connect]];
    assert s1.slots == Slots([true], [Sock(5, CONNECTED, 1)]);
    e := Event(3, false, None, nothing);
    RunInv(rs, batches, 3, 1);
    AcceptorErrorDropsPeerZero(s1, e);
  }

  // ----- what is never released -----

  /** The open descriptors that belong to nobody the server knows: neither to the acceptor nor to a
      connected slot. */
  ghost function Abandoned(r: Server): set<int> {
    set d | d in r.os.open && d != r.acceptor && !Leads(r, d)
  }

  /** The events that leave their descriptor open for ever: a lost connection, whose socket is marked
      disconnected before `close`, and any end of the connection on descriptor 0. */
  predicate Abandons(e: Event) {
    if !e.valid || Quits(e.input) then e.fd == 0 else Loses(e.input)
  }

  ghost predicate OfConnectedSlot(r: Server, d: int) {
    exists i :: 0 <= i < |r.slots.flags| && r.slots.flags[i] && i < |r.slots.socks| && r.slots.socks[i].fd == d
  }

  /** A slot that is connected leads from its descriptor to itself, so the open descriptors are those of
      the acceptor, of the connected slots, and the abandoned ones. */
  lemma OpenDescriptors(r: Server)
    requires Inv(r)
    ensures forall d :: d in r.os.open <==>
      d == r.acceptor || d in Abandoned(r) || OfConnectedSlot(r, d)
  {
    forall i | 0 <= i < |r.slots.flags| && r.slots.flags[i]
      ensures r.slots.socks[i].fd in r.os.open
    {
      assert OwnsDescriptor(r.os, r.slots.socks[i]);
    }
  }

  lemma FreedLeads(r: Server, r': Server, fd: int, d: int)
    requires Inv(r) && Leads(r, fd) && fd != r.acceptor
    requires Freed(r, r', fd)
    ensures Leads(r', d) <==> Leads(r, d) && d != fd
  {
  }

  /** Exactly the abandoning events add to the abandoned descriptors, and nothing takes one away. */
  lemma AbandonedGrows(r: Server, e: Event)
    requires Inv(r) && CanDeliver(r, e) && (e.fd == r.acceptor ==> e.valid)
    ensures Abandoned(HandleEvent(r, e)) ==
      Abandoned(r) + if e.fd != r.acceptor && Abandons(e) then {e.fd} else {}
  {
    if e.fd == r.acceptor {
      AcceptAbandonsNothing(r, e);
    } else {
      ClientAbandons(r, e);
    }
  }

  lemma ClientAbandons(r: Server, e: Event)
    requires Inv(r) && CanDeliver(r, e) && e.fd != r.acceptor
    ensures Abandoned(HandleEvent(r, e)) == Abandoned(r) + if Abandons(e) then {e.fd} else {}
  {
    var r' := HandleEvent(r, e);
    ClientEventEffect(r, e);
    if r' != r {
      forall d
        ensures Leads(r', d) <==> Leads(r, d) && d != e.fd
      {
        FreedLeads(r, r', e.fd, d);
      }
    }
  }

  lemma AcceptAbandonsNothing(r: Server, e: Event)
    requires Inv(r) && CanDeliver(r, e) && e.fd == r.acceptor && e.valid
    ensures Abandoned(HandleEvent(r, e)) == Abandoned(r)
  {
    RememberKeeps(r, e.fd);
    var r1, r' := r.(table := Known(r, e.fd)), HandleEvent(r, e);
    forall d | d != r.acceptor
      ensures Leads(r', d) <==> Leads(r, d) || e.accepted == Some(d)
    {
      assert Leads(r1, d) <==> Leads(r, d);
      if e.accepted.Some? {
        AcceptLeads(r1, e.accepted.value, d);
      }
    }
    assert e.accepted.Some? ==> e.accepted.value != r.acceptor;
  }

  /** The descriptors that the first `n` batches abandon. */
  function AbandonedBy(batches: seq<seq<Event>>, acceptor: int, n: nat): set<int>
    requires n <= |batches|
  {
    if n == 0 then {} else AbandonedBy(batches, acceptor, n - 1) + AbandonedIn(batches[n - 1], acceptor)
  }

  function AbandonedIn(batch: seq<Event>, acceptor: int): set<int>
    decreases |batch|
  {
    if batch == [] then {}
    else
      var e := batch[|batch| - 1];
      AbandonedIn(batch[..|batch| - 1], acceptor) + if e.fd != acceptor && Abandons(e) then {e.fd} else {}
  }

  lemma {:induction false} BatchAbandons(r: Server, batch: seq<Event>, k: nat)
    requires Inv(r) && Deliverable(r, batch) && k <= |batch|
    ensures Abandoned(After(r, batch[..k])) == Abandoned(r) + AbandonedIn(batch[..k], r.acceptor)
  {
    if k == 0 {
      assert batch[..0] == [];
    } else {
      BatchAbandons(r, batch, k - 1);
      BatchKeeps(r, batch, k - 1);
      NextInBatch(r, batch, k - 1);
      assert batch[..k][..k - 1] == batch[..k - 1];
      AbandonedGrows(After(r, batch[..k - 1]), batch[k - 1]);
    }
  }

  lemma NothingAbandonedYet(acceptor: int)
    ensures Abandoned(Started(acceptor)) == {}
  {
  }

  lemma {:induction false} RunAbandons(rs: seq<Server>, batches: seq<seq<Event>>, acceptor: int, k: nat)
    requires IsRun(rs, batches, acceptor) && k < |rs|
    ensures rs[k].acceptor == acceptor && Abandoned(rs[k]) == AbandonedBy(batches, acceptor, k)
  {
    if k > 0 {
      RunAbandons(rs, batches, acceptor, k - 1);
      RunInv(rs, batches, acceptor, k - 1);
      var s, b := AbandonedBy(batches, acceptor, k - 1), AbandonedIn(batches[k - 1], acceptor);
      assert rs[k].acceptor == acceptor && Abandoned(rs[k]) == s + b by {
        BatchAbandonsAll(rs[k - 1], batches[k - 1], rs[k]);
      }
      assert AbandonedBy(batches, acceptor, k) == s + b;
    } else {
      NothingAbandonedYet(acceptor);
    }
  }

  lemma BatchAbandonsAll(r: Server, batch: seq<Event>, r': Server)
    requires Inv(r) && Deliverable(r, batch) && r' == After(r, batch)
    ensures r'.acceptor == r.acceptor && Abandoned(r') == Abandoned(r) + AbandonedIn(batch, r.acceptor)
  {
    BatchAbandons(r, batch, |batch|);
    BatchInv(r, batch);
    assert batch[..|batch|] == batch;
  }

  /** Exact account of the descriptors over every run: what is open belongs to the acceptor or to a
      connected slot, or was abandoned by one of the events so far. */
  lemma DescriptorAccount(rs: seq<Server>, batches: seq<seq<Event>>, acceptor: int, k: nat)
    requires IsRun(rs, batches, acceptor) && k < |rs|
    ensures forall d :: d in rs[k].os.open <==>
      d == acceptor || d in AbandonedBy(batches, acceptor, k) || OfConnectedSlot(rs[k], d)
  {
    RunInv(rs, batches, acceptor, k);
    RunAbandons(rs, batches, acceptor, k);
    OpenDescriptors(rs[k]);
  }
}
