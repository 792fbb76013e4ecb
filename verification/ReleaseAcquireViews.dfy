/** The views of the acquire/release ring say exactly what coherence says (section 1.10 of
    ISO/IEC 14882:2011): a load may read a store if and only if no newer store to the same location
    happens before the load. So the view model neither allows nor forbids anything of its own. */
module ReleaseAcquireViews {
  import opened ReleaseAcquireRing

  datatype Location = WriteIndex | ReadIndex

  predicate IsStore(e: Event, loc: Location) {
    match loc case WriteIndex => e.StoreWrite? case ReadIndex => e.StoreRead?
  }

  function At(view: View, loc: Location): nat {
    match loc case WriteIndex => view.write case ReadIndex => view.read
  }

  function ViewOf(s: State, side: Side): View {
    if side == Producer then s.pv else s.cv
  }

  /** The event by which a side loads a location from a store. */
  function LoadEvent(loc: Location, side: Side, from: nat, val: int): Event {
    match loc case WriteIndex => LoadWrite(side, from, val) case ReadIndex => LoadRead(side, from, val)
  }

  predicate CanLoad(tr: seq<Event>, view: View, loc: Location, from: int) {
    match loc case WriteIndex => CanLoadWrite(tr, view, from) case ReadIndex => CanLoadRead(tr, view, from)
  }

  // ----- happens-before in a longer trace -----

  lemma {:induction false} HappensBeforeKept(tr: seq<Event>, e: Event, i: nat, j: nat)
    requires j < |tr|
    ensures HappensBefore(tr + [e], i, j) <==> HappensBefore(tr, i, j)
    decreases j
  {
    var tr' := tr + [e];
    assert Edge(tr', i, j) <==> Edge(tr, i, j);
    forall m: nat | i < m < j
      ensures HappensBefore(tr', i, m) && Edge(tr', m, j) <==> HappensBefore(tr, i, m) && Edge(tr, m, j)
    {
      HappensBeforeKept(tr, e, i, m);
    }
  }

  ghost predicate UpTo(tr: seq<Event>, j: nat, m: nat) {
    j == m || HappensBefore(tr, j, m)
  }

  /** What happens before the last event comes by one last edge. */
  lemma LastEdge(tr: seq<Event>, e: Event, j: nat) returns (m: nat)
    requires HappensBefore(tr + [e], j, |tr|)
    ensures j <= m < |tr| && UpTo(tr, j, m) && Edge(tr + [e], m, |tr|)
  {
    if Edge(tr + [e], j, |tr|) {
      m := j;
    } else {
      m :| j < m < |tr| && HappensBefore(tr + [e], j, m) && Edge(tr + [e], m, |tr|);
      HappensBeforeKept(tr, e, j, m);
    }
  }

  lemma EdgeToLast(tr: seq<Event>, e: Event, j: nat, m: nat)
    requires m < |tr| && UpTo(tr, j, m) && Edge(tr + [e], m, |tr|)
    ensures HappensBefore(tr + [e], j, |tr|)
  {
    if j != m {
      HappensBeforeKept(tr, e, j, m);
    }
  }

  // ----- exact views -----

  /** The view knows every store that happens before position `m`, or is there. */
  ghost predicate Covers(tr: seq<Event>, view: View, m: nat) {
    forall j: nat, loc {:trigger IsStore(tr[j], loc), UpTo(tr, j, m)} ::
      j < |tr| && IsStore(tr[j], loc) && UpTo(tr, j, m) ==> j <= At(view, loc)
  }

  predicate Of(tr: seq<Event>, m: nat, side: Side) {
    m < |tr| && (ThreadOf(tr[m]) == side || ThreadOf(tr[m]) == Main)
  }

  /** The side knows a store because it happens before something the side has done. */
  ghost predicate Backed(tr: seq<Event>, j: nat, side: Side) {
    exists m: nat :: Of(tr, m, side) && UpTo(tr, j, m)
  }

  ghost predicate SideExact(tr: seq<Event>, view: View, side: Side) {
    && ViewInv(tr, view)
    && (forall m: nat :: Of(tr, m, side) ==> Covers(tr, view, m))
    && (forall loc :: Backed(tr, At(view, loc), side))
  }

  /** A store's view is that of its thread; the first two, made before the threads, know of each other. */
  ghost predicate StoreExact(tr: seq<Event>, i: nat)
    requires i < |tr| && (tr[i].StoreWrite? || tr[i].StoreRead?)
  {
    && ViewInv(tr, tr[i].view) && Covers(tr, tr[i].view, i)
    && forall loc :: At(tr[i].view, loc) <= 1 || UpTo(tr, At(tr[i].view, loc), i)
  }

  ghost predicate StoresExact(tr: seq<Event>) {
    && |tr| >= 2 && tr[0].StoreWrite? && tr[1].StoreRead?
    && (forall i {:trigger StoreExact(tr, i)} ::
          0 <= i < |tr| && (tr[i].StoreWrite? || tr[i].StoreRead?) ==> StoreExact(tr, i))
  }

  ghost predicate ViewsExact(s: State) {
    StoresExact(s.tr) && SideExact(s.tr, s.pv, Producer) && SideExact(s.tr, s.cv, Consumer)
  }

  predicate Grows(view: View, view': View) {
    view.write <= view'.write && view.read <= view'.read
  }

  // ----- one more event -----

  lemma CoversKept(tr: seq<Event>, e: Event, view: View, view': View, m: nat)
    requires m < |tr| && Covers(tr, view, m) && Grows(view, view')
    ensures Covers(tr + [e], view', m)
  {
    forall j: nat, loc | j < |tr + [e]| && IsStore((tr + [e])[j], loc) && UpTo(tr + [e], j, m)
      ensures j <= At(view', loc)
    {
      HappensBeforeKept(tr, e, j, m);
      assert j <= m;
      assert IsStore(tr[j], loc) && UpTo(tr, j, m);
    }
  }

  lemma BackedKept(tr: seq<Event>, e: Event, j: nat, side: Side)
    requires Backed(tr, j, side)
    ensures Backed(tr + [e], j, side)
  {
    var m: nat :| Of(tr, m, side) && UpTo(tr, j, m);
    HappensBeforeKept(tr, e, j, m);
    assert Of(tr + [e], m, side) && UpTo(tr + [e], j, m);
  }

  lemma StoresKept(tr: seq<Event>, e: Event)
    requires StoresExact(tr)
    ensures forall i {:trigger StoreExact(tr + [e], i)} ::
      0 <= i < |tr| && (tr[i].StoreWrite? || tr[i].StoreRead?) ==> StoreExact(tr + [e], i)
  {
    forall i | 0 <= i < |tr| && (tr[i].StoreWrite? || tr[i].StoreRead?)
      ensures StoreExact(tr + [e], i)
    {
      assert StoreExact(tr, i);
      CoversKept(tr, e, tr[i].view, tr[i].view, i);
      forall loc
        ensures At(tr[i].view, loc) <= 1 || UpTo(tr + [e], At(tr[i].view, loc), i)
      {
        HappensBeforeKept(tr, e, At(tr[i].view, loc), i);
      }
    }
  }

  /** The side that did nothing knows what it knew. */
  lemma SideKept(tr: seq<Event>, e: Event, view: View, side: Side)
    requires SideExact(tr, view, side) && ThreadOf(e) != side && ThreadOf(e) != Main
    ensures SideExact(tr + [e], view, side)
  {
    forall m: nat | Of(tr + [e], m, side)
      ensures Covers(tr + [e], view, m)
    {
      assert Of(tr, m, side);
      CoversKept(tr, e, view, view, m);
    }
    forall loc
      ensures Backed(tr + [e], At(view, loc), side)
    {
      BackedKept(tr, e, At(view, loc), side);
    }
  }

  predicate LoadsFrom(e: Event, f: nat) {
    (e.LoadWrite? || e.LoadRead?) && e.from == f
  }

  /** The new view covers the new event, if it takes in the view of the store that is loaded. */
  lemma CoversNew(tr: seq<Event>, e: Event, view: View, view': View, side: Side)
    requires SideExact(tr, view, side) && StoresExact(tr) && ThreadOf(e) == side && side != Main && Grows(view, view')
    requires forall f: nat :: LoadsFrom(e, f) && f < |tr| && (tr[f].StoreWrite? || tr[f].StoreRead?) ==>
      Grows(tr[f].view, view')
    requires forall loc :: IsStore(e, loc) ==> At(view', loc) == |tr|
    ensures Covers(tr + [e], view', |tr|)
  {
    var tr' := tr + [e];
    forall j: nat, loc | j < |tr'| && IsStore(tr'[j], loc) && UpTo(tr', j, |tr|)
      ensures j <= At(view', loc)
    {
      if j < |tr| {
        var m := LastEdge(tr, e, j);
        if SequencedBefore(tr', m, |tr|) {
          assert Of(tr, m, side) && Covers(tr, view, m);
        } else {
          assert LoadsFrom(e, m) && StoreExact(tr, m);
        }
      }
    }
  }

  lemma SideGrows(tr: seq<Event>, e: Event, view: View, view': View, side: Side)
    requires SideExact(tr, view, side) && StoresExact(tr) && ThreadOf(e) == side && side != Main && Grows(view, view')
    requires ViewInv(tr + [e], view') && Covers(tr + [e], view', |tr|)
    requires forall loc :: At(view', loc) == At(view, loc) || UpTo(tr + [e], At(view', loc), |tr|)
    ensures SideExact(tr + [e], view', side)
  {
    var tr' := tr + [e];
    forall m: nat | Of(tr', m, side)
      ensures Covers(tr', view', m)
    {
      if m < |tr| {
        assert Of(tr, m, side);
        CoversKept(tr, e, view, view', m);
      }
    }
    forall loc
      ensures Backed(tr', At(view', loc), side)
    {
      if At(view', loc) == At(view, loc) {
        BackedKept(tr, e, At(view, loc), side);
      } else {
        assert Of(tr', |tr|, side);
      }
    }
  }

  // ----- the three kinds of event -----

  function AfterLoad(view: View, e: Event, loc: Location, from: nat): View
    requires IsStore(e, loc)
  {
    match loc case WriteIndex => AfterLoadWrite(view, e, from) case ReadIndex => AfterLoadRead(view, e, from)
  }

  lemma LoadExact(tr: seq<Event>, view: View, side: Side, loc: Location, from: nat)
    requires SideExact(tr, view, side) && StoresExact(tr) && side != Main
    requires from < |tr| && IsStore(tr[from], loc)
    ensures var e := LoadEvent(loc, side, from, tr[from].val);
      SideExact(tr + [e], AfterLoad(view, tr[from], loc, from), side) && StoresExact(tr + [e])
  {
    var e, view' := LoadEvent(loc, side, from, tr[from].val), AfterLoad(view, tr[from], loc, from);
    assert StoreExact(tr, from);
    StoresKept(tr, e);
    CoversNew(tr, e, view, view', side);
    assert Edge(tr + [e], from, |tr|);
    forall l
      ensures At(view', l) == At(view, l) || UpTo(tr + [e], At(view', l), |tr|)
    {
      if At(view', l) != At(view, l) && At(view', l) != from {
        assert At(view', l) == At(tr[from].view, l);
        assert At(view', l) > 1;
        EdgeToLast(tr, e, At(view', l), from);
      } else if At(view', l) == from {
        EdgeToLast(tr, e, from, from);
      }
    }
    SideGrows(tr, e, view, view', side);
  }

  lemma StoreMadeExact(tr: seq<Event>, view: View, side: Side, loc: Location, e: Event, view': View)
    requires SideExact(tr, view, side) && StoresExact(tr) && side != Main
    requires IsStore(e, loc) && e.t == side && e.view == view'
    requires view' == match loc case WriteIndex => view.(write := |tr|) case ReadIndex => view.(read := |tr|)
    ensures SideExact(tr + [e], view', side) && StoresExact(tr + [e])
  {
    StoresKept(tr, e);
    CoversNew(tr, e, view, view', side);
    SideGrows(tr, e, view, view', side);
    forall l
      ensures At(view', l) <= 1 || UpTo(tr + [e], At(view', l), |tr|)
    {
      if l != loc {
        var m: nat :| Of(tr, m, side) && UpTo(tr, At(view, l), m);
        EdgeToLast(tr, e, At(view, l), m);
      }
    }
    assert StoreExact(tr + [e], |tr|);
  }

  lemma SlotAccessExact(tr: seq<Event>, view: View, side: Side, e: Event)
    requires SideExact(tr, view, side) && StoresExact(tr) && SlotAccess(e) && ThreadOf(e) == side
    ensures SideExact(tr + [e], view, side) && StoresExact(tr + [e])
  {
    StoresKept(tr, e);
    CoversNew(tr, e, view, view, side);
    SideGrows(tr, e, view, view, side);
  }

  lemma ProducerExact(s: State, a: Action)
    requires s.size > 0 && ProducerCan(s, a) && ViewsExact(s)
    ensures ViewsExact(StepProducer(s, a))
  {
    var s' := StepProducer(s, a);
    if s'.tr != s.tr {
      SideKept(s.tr, s'.tr[|s.tr|], s.cv, Consumer);
      match s.p {
        case PCalled(_) => LoadExact(s.tr, s.pv, Producer, WriteIndex, a.from);
        case PLoaded(_, _, _) => LoadExact(s.tr, s.pv, Producer, ReadIndex, a.from);
        case PRoom(_, _, _, _) => SlotAccessExact(s.tr, s.pv, Producer, s'.tr[|s.tr|]);
        case PStored(_, _, _) => StoreMadeExact(s.tr, s.pv, Producer, WriteIndex, s'.tr[|s.tr|], s'.pv);
      }
    }
  }

  lemma ConsumerExact(s: State, a: Action)
    requires s.size > 0 && ConsumerCan(s, a) && ViewsExact(s)
    ensures ViewsExact(StepConsumer(s, a))
  {
    var s' := StepConsumer(s, a);
    if s'.tr != s.tr {
      SideKept(s.tr, s'.tr[|s.tr|], s.pv, Producer);
      match s.c {
        case CCalled => LoadExact(s.tr, s.cv, Consumer, ReadIndex, a.from);
        case CLoaded(_) => LoadExact(s.tr, s.cv, Consumer, WriteIndex, a.from);
        case CSome(_, _) => SlotAccessExact(s.tr, s.cv, Consumer, s'.tr[|s.tr|]);
        case CRead(_, _) => StoreMadeExact(s.tr, s.cv, Consumer, ReadIndex, s'.tr[|s.tr|], s'.cv);
      }
    }
  }

  lemma InitialExact(size: nat)
    ensures ViewsExact(Initial(size))
  {
    var tr, view := Initial(size).tr, View(0, 1);
    assert Of(tr, 0, Producer) && Of(tr, 1, Producer) && Of(tr, 0, Consumer) && Of(tr, 1, Consumer);
    assert UpTo(tr, 0, 0) && UpTo(tr, 1, 1);
    assert Backed(tr, 0, Producer) && Backed(tr, 1, Producer) && Backed(tr, 0, Consumer) && Backed(tr, 1, Consumer);
    assert At(view, WriteIndex) == 0 && At(view, ReadIndex) == 1;
  }

  lemma {:induction false} RunExact(ss: seq<State>, acts: seq<Action>, size: nat, n: nat)
    requires IsRun(ss, acts, size) && n < |ss|
    ensures ViewsExact(ss[n])
  {
    if n == 0 {
      InitialExact(size);
    } else {
      RunExact(ss, acts, size, n - 1);
      var s, a := ss[n - 1], acts[n - 1];
      assert Enabled(s, a);
      if a.side == Producer {
        ProducerExact(s, a);
      } else {
        ConsumerExact(s, a);
      }
    }
  }

  // ----- coherence -----

  /** No newer store to the location happens before the load. */
  ghost predicate Coherent(tr: seq<Event>, side: Side, loc: Location, from: nat)
    requires from < |tr| && IsStore(tr[from], loc)
  {
    forall j: nat :: from < j < |tr| && IsStore(tr[j], loc) ==>
      !HappensBefore(tr + [LoadEvent(loc, side, from, tr[from].val)], j, |tr|)
  }

  /** A store that happens before a load is known to the loading side, or is no newer than the store
      that is loaded. */
  lemma KnownBeforeLoad(tr: seq<Event>, view: View, side: Side, loc: Location, from: nat, j: nat)
    requires SideExact(tr, view, side) && side != Main && from < |tr| && IsStore(tr[from], loc)
    requires j < |tr| && IsStore(tr[j], loc)
    requires HappensBefore(tr + [LoadEvent(loc, side, from, tr[from].val)], j, |tr|)
    ensures j <= At(view, loc) || j <= from
  {
    var m := LastEdge(tr, LoadEvent(loc, side, from, tr[from].val), j);
    if m != from {
      assert Of(tr, m, side) && Covers(tr, view, m);
    }
  }

  lemma ExactIsCoherent(tr: seq<Event>, view: View, side: Side, loc: Location, from: nat)
    requires SideExact(tr, view, side) && side != Main && from < |tr| && IsStore(tr[from], loc)
    ensures At(view, loc) <= from <==> Coherent(tr, side, loc, from)
  {
    var e := LoadEvent(loc, side, from, tr[from].val);
    if At(view, loc) <= from {
      forall j: nat | from < j < |tr| && IsStore(tr[j], loc)
        ensures !HappensBefore(tr + [e], j, |tr|)
      {
        if HappensBefore(tr + [e], j, |tr|) {
          KnownBeforeLoad(tr, view, side, loc, from, j);
        }
      }
    } else {
      var j := At(view, loc);
      var m: nat :| Of(tr, m, side) && UpTo(tr, j, m);
      EdgeToLast(tr, e, j, m);
    }
  }

  /** In every execution, whichever side loads whichever index: the view lets it read a store if and
      only if no newer store to that index happens before the load. */
  lemma LoadsAreCoherent(ss: seq<State>, acts: seq<Action>, size: nat, n: nat, side: Side, loc: Location, from: nat)
    requires IsRun(ss, acts, size) && n < |ss| && side != Main
    requires from < |ss[n].tr| && IsStore(ss[n].tr[from], loc)
    ensures CanLoad(ss[n].tr, ViewOf(ss[n], side), loc, from) <==> Coherent(ss[n].tr, side, loc, from)
  {
    RunExact(ss, acts, size, n);
    ExactIsCoherent(ss[n].tr, ViewOf(ss[n], side), side, loc, from);
  }
}
