/** What one poll_dispatch makes active and what it leaves registered, said of what poll reported and of who was
    registered. */
module PollReady {
  import opened Seqs
  import opened Poll
  import opened PollSet

  /** The report lets the registered reader read or the registered writer write; both, if the peer hung up or
      there is an error. */
  predicate Roused(w: Waiters, what: What, ev: Id) {
    || ((what.in_ || what.hup) && w.reader == Some(ev))
    || ((what.out || what.hup) && w.writer == Some(ev))
  }

  /** Who stays registered: whoever was not roused, or persists. */
  function Kept(es: Events, w: Waiters, what: What, x: Option<Id>): Option<Id> {
    if x.Some? && Roused(w, what, x.value) && !es.persists(x.value) then None else x
  }

  /** The event, and for which of its conditions it is made active. */
  function Due(es: Events, what: What, ev: Id): Delivery {
    Delivery(ev, (what.in_ || what.hup) && es.wantsRead(ev), (what.out || what.hup) && es.wantsWrite(ev))
  }

  // ---- one slot -------------------------------------------------------------------------------------

  lemma SlotReady(es: Events, s: Slot)
    requires SlotOk(es, s)
    ensures var w := Waiters(s.reader, s.writer);
            && (forall d :: d in Deliveries(es, s) <==> Roused(w, s.what, d.ev) && d == Due(es, s.what, d.ev))
            && After(es, s) == Waiters(Kept(es, w, s.what, s.reader), Kept(es, w, s.what, s.writer))
            && (forall d :: d in Deliveries(es, s) ==> es.fd(d.ev) == s.fd)
  {
  }

  // ---- the whole log ------------------------------------------------------------------------------------

  lemma {:induction false} InAll(es: Events, slots: seq<Slot>, i: nat, end: nat, d: Delivery)
    requires i <= end <= |slots|
    ensures d in AllDeliveries(es, slots, i, end) <==> exists j :: i <= j < end && d in Deliveries(es, slots[j])
    decreases end - i
  {
    hide Deliveries;
    if i < end {
      InAll(es, slots, i + 1, end, d);
      if d in Deliveries(es, slots[i]) {
        assert d in Deliveries(es, slots[i]) + AllDeliveries(es, slots, i + 1, end);
      }
    }
  }

  lemma {:induction false} InIds(log: seq<Delivery>, ev: Id)
    ensures ev in Ids(log) <==> exists d :: d in log && d.ev == ev
  {
    if log != [] {
      InIds(log[1..], ev);
      assert log == [log[0]] + log[1..];
      if ev in Ids(log) && ev != log[0].ev {
        var d :| d in log[1..] && d.ev == ev;
        assert d in log;
      }
      if log[0].ev == ev {
        assert log[0] in log;
      }
    }
  }

  /** Whoever was registered for a descriptor that poll reported on is made active exactly if the report rouses
      him, once, and for the conditions that are both reported and waited for. */
  lemma DispatchExactly(es: Events, p: Pop, whats: seq<What>, j: nat, ev: Id)
    requires Valid(es, p) && |whats| == p.nfds <= |p.slots| && j < p.nfds && es.fd(ev) == p.slots[j].fd
    ensures Indexed(p)
    ensures var w, log := Registered(p, es.fd(ev)), Walk(es, Reported(p, whats), 0, p.nfds).1;
            && multiset(Ids(log))[ev] == (if Roused(w, whats[j], ev) then 1 else 0)
            && forall d :: d in log && d.ev == ev <==> Roused(w, whats[j], ev) && d == Due(es, whats[j], ev)
  {
    hide Valid, SlotOk, Deliveries, AllDeliveries, NoDup, Ids, Walk, Roused, Due, Indexed;
    ReportedSlot(es, p, whats, j);
    var q := Reported(p, whats);
    DispatchDelivers(es, q, 0);
    var log := AllDeliveries(es, q.slots, 0, q.nfds);
    AllIds(es, q, 0);
    NoDupCount(Ids(log), ev);
    InIds(log, ev);
    var w := Registered(p, es.fd(ev));
    forall d: Delivery | d.ev == ev
      ensures d in log <==> Roused(w, whats[j], ev) && d == Due(es, whats[j], ev)
    {
      FromItsSlot(es, q, j, d);
      SlotReady(es, q.slots[j]);
    }
    if Roused(w, whats[j], ev) {
      DueIs(es, whats[j], ev);
      assert Due(es, whats[j], ev) in log;
    }
  }

  lemma DueIs(es: Events, what: What, ev: Id)
    ensures Due(es, what, ev).ev == ev
  {
  }

  lemma ReportedSlot(es: Events, p: Pop, whats: seq<What>, j: nat)
    requires Valid(es, p) && |whats| == p.nfds <= |p.slots| && j < p.nfds
    ensures var q, s := Reported(p, whats), p.slots[j];
            && Valid(es, q) && Indexed(p) && q.nfds == p.nfds && |q.slots| == |p.slots| && q.index == p.index
            && q.slots[j] == s.(what := whats[j]) && SlotOk(es, q.slots[j])
            && s.fd < |p.index| && p.index[s.fd] == j + 1
            && Registered(p, s.fd) == Waiters(s.reader, s.writer)
  {
    ReportedValid(es, p, whats);
    SlotIs(es, p, j);
    SlotIs(es, Reported(p, whats), j);
    hide SlotOk;
  }

  /** A delivery comes from the slot of its event's descriptor and no other. */
  lemma FromItsSlot(es: Events, q: Pop, j: nat, d: Delivery)
    requires Valid(es, q) && j < q.nfds <= |q.slots| && es.fd(d.ev) == q.slots[j].fd
    ensures d in AllDeliveries(es, q.slots, 0, q.nfds) <==> d in Deliveries(es, q.slots[j])
  {
    hide Valid, SlotOk, Deliveries, AllDeliveries, Roused, Due, After;
    InAll(es, q.slots, 0, q.nfds, d);
    SlotIs(es, q, j);
    forall k | 0 <= k < q.nfds && d in Deliveries(es, q.slots[k])
      ensures k == j
    {
      SlotIs(es, q, k);
      SlotReady(es, q.slots[k]);
    }
  }

  /** An event for a descriptor that is not in the set is not made active. */
  lemma NobodyElse(es: Events, p: Pop, whats: seq<What>, ev: Id)
    requires Valid(es, p) && |whats| == p.nfds <= |p.slots|
    requires forall j :: 0 <= j < p.nfds ==> p.slots[j].fd != es.fd(ev)
    ensures ev !in Ids(Walk(es, Reported(p, whats), 0, p.nfds).1)
  {
    hide Valid, SlotOk, Deliveries, AllDeliveries, NoDup, Ids, Walk, Roused, Due, Indexed, After;
    ReportedValid(es, p, whats);
    var q := Reported(p, whats);
    DispatchDelivers(es, q, 0);
    var log := AllDeliveries(es, q.slots, 0, q.nfds);
    InIds(log, ev);
    if ev in Ids(log) {
      var d: Delivery :| d in log && d.ev == ev;
      InAll(es, q.slots, 0, q.nfds, d);
      var j :| 0 <= j < q.nfds && d in Deliveries(es, q.slots[j]);
      ReportedSlot(es, p, whats, j);
      SlotReady(es, q.slots[j]);
      assert false;
    }
  }

  /** Afterwards just the roused events that do not persist are no longer registered. */
  lemma DispatchLeaves(es: Events, p: Pop, whats: seq<What>, f: nat)
    requires Valid(es, p) && |whats| == p.nfds <= |p.slots|
    ensures Indexed(p) && Indexed(Walk(es, Reported(p, whats), 0, p.nfds).0)
    ensures Valid(es, Walk(es, Reported(p, whats), 0, p.nfds).0)
    ensures var w, after := Registered(p, f), Registered(Walk(es, Reported(p, whats), 0, p.nfds).0, f);
            && (forall j :: 0 <= j < p.nfds && p.slots[j].fd == f ==>
                  after == Waiters(Kept(es, w, whats[j], w.reader), Kept(es, w, whats[j], w.writer)))
            && ((forall j :: 0 <= j < p.nfds ==> p.slots[j].fd != f) ==> after == w == Waiters(None, None))
  {
    hide Valid, SlotOk, Walk, Kept, Indexed, After, Registered;
    ReportedValid(es, p, whats);
    var q := Reported(p, whats);
    DispatchDelivers(es, q, f);
    IndexedOf(es, p);
    IndexedOf(es, Walk(es, q, 0, q.nfds).0);
    forall j | 0 <= j < p.nfds && p.slots[j].fd == f
      ensures var w := Registered(p, f);
              After(es, q.slots[j]) == Waiters(Kept(es, w, whats[j], w.reader), Kept(es, w, whats[j], w.writer))
              && q.index == p.index && f < |p.index| && p.index[f] == j + 1 && |q.slots| == |p.slots|
    {
      ReportedSlot(es, p, whats, j);
      SlotReady(es, q.slots[j]);
    }
    if forall j :: 0 <= j < p.nfds ==> p.slots[j].fd != f {
      NotThere(p, f);
    }
  }

  lemma NotThere(p: Pop, f: nat)
    requires Indexed(p) && p.nfds <= |p.slots| && forall j :: 0 <= j < p.nfds ==> p.slots[j].fd != f
    ensures Registered(p, f) == Waiters(None, None) && (f < |p.index| ==> p.index[f] == 0)
  {
    if f < |p.index| {
      IndexAt(p, f);
    }
  }
}
