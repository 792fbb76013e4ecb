/** Sockets, the operating system's descriptors, and the server's peer slots.

    The operating system is an environment: it hands out any descriptor that is not open, and every
    connection it accepts gets a number of its own, so that one can tell whose descriptor a `close`
    releases. */
module PeerSlots {
  import opened Int32

  datatype Option<T> = None | Some(value: T)

  datatype SocketState = DISCONNECTED | BOUND | CONNECTED | LISTENING | ACCEPTED

  /** A socket and the connection it was made for. */
  datatype Sock = Sock(fd: int, state: SocketState, conn: nat)

  /** The open descriptors, each with the connection that owns it. `wrong` records that some `close`
      released a descriptor of another connection, or one that was not open. */
  datatype Os = Os(open: map<int, nat>, next: nat, wrong: bool)

  datatype Slots = Slots(flags: seq<bool>, socks: seq<Sock>)

  // ----- descriptors -----

  /** `accept` may return any descriptor an `int` can hold that is not open. */
  predicate CanAccept(os: Os, fd: int) {
    0 <= fd <= INT_MAX && fd !in os.open
  }

  function OsAccept(os: Os, fd: int): Os {
    os.(open := os.open[fd := os.next], next := os.next + 1)
  }

  function OsClose(os: Os, fd: int, conn: nat): Os {
    os.(open := os.open - {fd}, wrong := os.wrong || fd !in os.open || os.open[fd] != conn)
  }

  // ----- sockets -----

  /** `Socket::close`: nothing once the socket is disconnected; a descriptor 0 is never released. */
  function Closed(k: Sock): Sock {
    k.(state := DISCONNECTED)
  }

  function CloseIn(os: Os, k: Sock): Os {
    if k.state != DISCONNECTED && k.fd > 0 then OsClose(os, k.fd, k.conn) else os
  }

  /** The errors that `isConnectionLost` takes for a lost connection. */
  predicate LostError(error: int) {
    100 <= error <= 104
  }

  // ----- slots -----

  /** The least index whose flag is clear, or the number of slots. */
  function FirstFree(flags: seq<bool>): nat {
    if flags == [] || !flags[0] then 0 else 1 + FirstFree(flags[1..])
  }

  lemma {:induction false} FirstFreeIsLeast(flags: seq<bool>)
    ensures FirstFree(flags) <= |flags|
    ensures FirstFree(flags) < |flags| ==> !flags[FirstFree(flags)]
    ensures forall i :: 0 <= i < FirstFree(flags) ==> flags[i]
  {
    if flags != [] && flags[0] {
      FirstFreeIsLeast(flags[1..]);
      forall i | 0 <= i < FirstFree(flags)
        ensures flags[i]
      {
        assert i > 0 ==> flags[i] == flags[1..][i - 1];
      }
    }
  }

  /** `addPeer`: the new peer takes the first free slot, whose old socket is destroyed, or a new one. */
  function AddPeer(sv: Slots, peer: Sock): Slots {
    var i := FirstFree(sv.flags);
    if i < |sv.flags| && i < |sv.socks| then Slots(sv.flags[i := true], sv.socks[i := peer])
    else Slots(sv.flags + [true], sv.socks + [peer])
  }

  /** Destroying a socket closes it. */
  function AddPeerIn(os: Os, sv: Slots): Os {
    var i := FirstFree(sv.flags);
    if i < |sv.flags| && i < |sv.socks| then CloseIn(os, sv.socks[i]) else os
  }

  /** `removePeer`. */
  function RemovePeer(sv: Slots, i: nat): Slots
    requires i < |sv.flags| && i < |sv.socks|
  {
    Slots(sv.flags[i := false], sv.socks[i := Closed(sv.socks[i])])
  }

  function RemovePeerIn(os: Os, sv: Slots, i: nat): Os
    requires i < |sv.socks|
  {
    CloseIn(os, sv.socks[i])
  }

  /** A connected slot owns its open descriptor, unless its connection has just been found lost. */
  predicate OwnsDescriptor(os: Os, k: Sock) {
    k.fd in os.open && os.open[k.fd] == k.conn && k.state == CONNECTED
  }

  /** Every free slot holds a disconnected socket; every other slot owns its descriptor, alone. */
  ghost predicate SlotsInv(sv: Slots, os: Os) {
    && |sv.flags| == |sv.socks|
    && (forall i :: 0 <= i < |sv.flags| ==>
          if sv.flags[i] then OwnsDescriptor(os, sv.socks[i]) else sv.socks[i].state == DISCONNECTED)
    && (forall i, j :: 0 <= i < j < |sv.flags| && sv.flags[i] && sv.flags[j] ==> sv.socks[i].fd != sv.socks[j].fd)
  }

  /** Reusing a slot destroys a socket that no longer owns anything: the descriptors stay as they are. */
  lemma ReuseReleasesNothing(sv: Slots, os: Os)
    requires SlotsInv(sv, os)
    ensures AddPeerIn(os, sv) == os
  {
    FirstFreeIsLeast(sv.flags);
  }

  lemma AddPeerKeeps(sv: Slots, os: Os, fd: int)
    requires SlotsInv(sv, os) && CanAccept(os, fd)
    ensures var sv', os' := AddPeer(sv, Sock(fd, CONNECTED, os.next)), AddPeerIn(OsAccept(os, fd), sv);
      SlotsInv(sv', os') && os' == OsAccept(os, fd)
  {
    FirstFreeIsLeast(sv.flags);
  }

  /** Removing a connected peer releases its own descriptor and no other. */
  lemma RemovePeerKeeps(sv: Slots, os: Os, i: nat)
    requires SlotsInv(sv, os) && i < |sv.flags| && sv.flags[i]
    ensures SlotsInv(RemovePeer(sv, i), RemovePeerIn(os, sv, i))
    ensures RemovePeerIn(os, sv, i) == if sv.socks[i].fd > 0 then os.(open := os.open - {sv.socks[i].fd}) else os
  {
  }

  // ----- slots over a history of connections -----

  datatype Change = Connect(peer: Sock) | Disconnect(i: nat)

  predicate CanChange(sv: Slots, c: Change) {
    c.Disconnect? ==> c.i < |sv.flags| && c.i < |sv.socks| && sv.flags[c.i]
  }

  function Changed(sv: Slots, c: Change): Slots
    requires CanChange(sv, c)
  {
    match c
    case Connect(peer) => AddPeer(sv, peer)
    case Disconnect(i) => RemovePeer(sv, i)
  }

  function Connected(flags: seq<bool>): nat {
    if flags == [] then 0 else (if flags[0] then 1 else 0) + Connected(flags[1..])
  }

  predicate ValidHistory(h: seq<Change>)
    decreases |h|, 0
  {
    h == [] || (ValidHistory(h[..|h| - 1]) && CanChange(After(h[..|h| - 1]), h[|h| - 1]))
  }

  function After(h: seq<Change>): Slots
    requires ValidHistory(h)
    decreases |h|, 1
  {
    if h == [] then Slots([], []) else Changed(After(h[..|h| - 1]), h[|h| - 1])
  }

  /** The largest number of peers connected at the same time so far. */
  function Peak(h: seq<Change>): nat
    requires ValidHistory(h)
    decreases |h|
  {
    if h == [] then 0
    else
      var before, now := Peak(h[..|h| - 1]), Connected(After(h).flags);
      if now > before then now else before
  }

  lemma {:induction false} ConnectedUpdate(flags: seq<bool>, i: nat, b: bool)
    requires i < |flags|
    ensures Connected(flags[i := b]) + (if flags[i] then 1 else 0) == Connected(flags) + if b then 1 else 0
  {
    if i == 0 {
      assert flags[i := b][1..] == flags[1..];
    } else {
      assert flags[i := b][1..] == flags[1..][i - 1 := b];
      ConnectedUpdate(flags[1..], i - 1, b);
    }
  }

  lemma {:induction false} ConnectedAppend(flags: seq<bool>)
    ensures Connected(flags + [true]) == Connected(flags) + 1
  {
    if flags == [] {
      assert flags + [true] == [true];
    } else {
      assert (flags + [true])[1..] == flags[1..] + [true];
      ConnectedAppend(flags[1..]);
    }
  }

  lemma {:induction false} ConnectedBound(flags: seq<bool>)
    ensures Connected(flags) <= |flags|
    ensures Connected(flags) == |flags| <==> FirstFree(flags) == |flags|
  {
    FirstFreeIsLeast(flags);
    if flags != [] {
      ConnectedBound(flags[1..]);
      FirstFreeIsLeast(flags[1..]);
    }
  }

  /** `addPeer` uses the least free index and disturbs no other slot. */
  lemma AddPeerIsFirstFit(sv: Slots, peer: Sock)
    requires |sv.flags| == |sv.socks|
    ensures var sv', i := AddPeer(sv, peer), FirstFree(sv.flags);
      && i < |sv'.flags| == |sv'.socks| && sv'.flags[i] && sv'.socks[i] == peer
      && (forall j :: 0 <= j < i ==> sv.flags[j])
      && (i < |sv.flags| ==> !sv.flags[i])
      && (forall j :: 0 <= j < |sv.flags| && j != i ==> sv'.flags[j] == sv.flags[j] && sv'.socks[j] == sv.socks[j])
  {
    FirstFreeIsLeast(sv.flags);
  }

  /** The peer has taken slot `i`, the least free one or a new one, and no other slot has changed. */
  predicate Seated(sv: Slots, sv': Slots, peer: Sock, i: nat) {
    && i <= |sv.flags| == |sv.socks|
    && (forall j :: 0 <= j < i ==> sv.flags[j])
    && if i < |sv.flags| then
         !sv.flags[i] && sv' == Slots(sv.flags[i := true], sv.socks[i := peer])
       else
         sv' == Slots(sv.flags + [true], sv.socks + [peer])
  }

  lemma AddPeerSeats(sv: Slots, peer: Sock)
    requires |sv.flags| == |sv.socks|
    ensures Seated(sv, AddPeer(sv, peer), peer, FirstFree(sv.flags))
  {
    FirstFreeIsLeast(sv.flags);
  }

  /** After any history of connects and disconnects there are exactly as many slots as the largest
      number of peers that were ever connected at once. */
  lemma {:induction false} SlotsArePeak(h: seq<Change>)
    requires ValidHistory(h)
    ensures |After(h).flags| == |After(h).socks| == Peak(h)
    decreases |h|
  {
    if h != [] {
      SlotsArePeak(h[..|h| - 1]);
      var sv := After(h[..|h| - 1]);
      ConnectedBound(sv.flags);
      match h[|h| - 1] {
        case Connect(_) =>
          FirstFreeIsLeast(sv.flags);
          ConnectedAppend(sv.flags);
          if FirstFree(sv.flags) < |sv.flags| {
            ConnectedUpdate(sv.flags, FirstFree(sv.flags), true);
          }
        case Disconnect(i) => ConnectedUpdate(sv.flags, i, false);
      }
      ConnectedBound(After(h).flags);
    }
  }

  // ----- slot numbers fit an int -----

  lemma {:induction false} BoundedSet(s: set<int>, n: nat)
    requires forall x :: x in s ==> 0 <= x < n
    ensures |s| <= n
    decreases n
  {
    if n == 0 {
      assert forall x :: x !in s;
      assert s == {};
    } else if n - 1 in s {
      BoundedSet(s - {n - 1}, n - 1);
    } else {
      BoundedSet(s, n - 1);
    }
  }

  /** The descriptors of the first `n` slots. */
  function Descriptors(sv: Slots, n: nat): set<int>
    requires n <= |sv.socks|
  {
    if n == 0 then {} else Descriptors(sv, n - 1) + {sv.socks[n - 1].fd}
  }

  lemma {:induction false} DescriptorsDistinct(sv: Slots, os: Os, n: nat)
    requires SlotsInv(sv, os) && n <= |sv.flags| && forall i :: 0 <= i < n ==> sv.flags[i]
    ensures |Descriptors(sv, n)| == n
    ensures forall d :: d in Descriptors(sv, n) ==> d in os.open && exists i :: 0 <= i < n && sv.socks[i].fd == d
  {
    if n > 0 {
      DescriptorsDistinct(sv, os, n - 1);
    }
  }

  /** With every slot connected there are fewer slots than an `int` has values, twice over. */
  lemma FullSlotsFit(sv: Slots, os: Os, acceptor: int, fd: int)
    requires SlotsInv(sv, os) && CanAccept(os, fd)
    requires forall d :: d in os.open ==> 0 <= d <= INT_MAX
    requires forall i :: 0 <= i < |sv.flags| ==> sv.flags[i] && sv.socks[i].fd != acceptor
    requires acceptor in os.open
    ensures |sv.flags| + 1 <= INT_MAX
  {
    DescriptorsDistinct(sv, os, |sv.flags|);
    var ds := Descriptors(sv, |sv.flags|);
    assert acceptor !in ds && fd !in ds && fd != acceptor;
    var all := ds + {acceptor, fd};
    assert all - {acceptor, fd} == ds;
    BoundedSet(all, INT_MAX + 1);
  }

  /** Descriptors are `int`s and every connected peer has one of its own, so the slot numbers that
      `addPeer` keeps in an `int` are never narrowed. */
  lemma SlotNumbersFit(sv: Slots, os: Os, acceptor: int, fd: int)
    requires SlotsInv(sv, os) && CanAccept(os, fd) && |sv.flags| <= INT_MAX
    requires forall d :: d in os.open ==> 0 <= d <= INT_MAX
    requires acceptor in os.open && forall i :: 0 <= i < |sv.flags| && sv.flags[i] ==> sv.socks[i].fd != acceptor
    ensures |AddPeer(sv, Sock(fd, CONNECTED, os.next)).flags| <= INT_MAX
    ensures Wrap(FirstFree(sv.flags)) == FirstFree(sv.flags)
  {
    FirstFreeIsLeast(sv.flags);
    if FirstFree(sv.flags) == |sv.flags| {
      FullSlotsFit(sv, os, acceptor, fd);
    }
  }
}
