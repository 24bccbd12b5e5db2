/** poll.c over its arrays.  The three parallel arrays event_set, event_r_back and event_w_back
    are one array of slots.  Each method computes the function of module Poll. */
module PollSet {
  import opened Seqs
  import opened Poll

  class PollOp {
    const es: Events
    var slots: array<Slot>
    var index: array<int>
    var nfds: nat

    ghost function Value(): Pop
      reads this, slots, index
    {
      Pop(slots[..], nfds, index[..])
    }

    /** poll_init */
    constructor (es: Events)
      ensures Value() == Pop([], 0, []) && Valid(es, Value()) && this.es == es && fresh(slots) && fresh(index)
    {
      this.es := es;
      slots := new Slot[0];
      index := new int[0];
      nfds := 0;
    }

    /** The reallocation of the event arrays. */
    method EnlargeSlots()
      requires nfds <= slots.Length
      modifies this`slots
      ensures Value() == GrowSlots(old(Value())) && (slots == old(slots) || fresh(slots)) && nfds < slots.Length
    {
      if nfds + 1 >= slots.Length {
        var n := NextCount(slots.Length);
        var larger := new Slot[n](_ => UNUSED);
        forall i | 0 <= i < slots.Length {
          larger[i] := slots[i];
        }
        slots := larger;
      }
    }

    /** The reallocation of idxplus1_by_fd, with its doubling loop. */
    method EnlargeIndex(fd: nat)
      modifies this`index
      ensures Value() == GrowIndex(old(Value()), fd) && (index == old(index) || fresh(index)) && fd < index.Length
    {
      if fd >= index.Length {
        var n := if index.Length < 32 then 32 else index.Length * 2;
        ghost var first := n;
        while n <= fd
          invariant n > 0 && n >= index.Length && CountFor(n, fd) == CountFor(first, fd)
          decreases fd - n
        {
          n := n * 2;
        }
        var larger := new int[n](_ => 0);
        forall i | 0 <= i < index.Length {
          larger[i] := index[i];
        }
        index := larger;
      }
    }

    method PollAdd(ev: Id)
      requires Valid(es, Value())
      modifies this, slots, index
      ensures Value() == Add(es, old(Value()), ev)
    {
      if !es.wantsRead(ev) && !es.wantsWrite(ev) {
        return;
      }
      GrowValid(es, Value(), es.fd(ev));
      GrowSlotsValid(es, Value());
      EnlargeSlots();
      EnlargeIndex(es.fd(ev));
      hide SlotOk, GrowSlots, GrowIndex;
      assert index[..][es.fd(ev)] <= nfds;
      Enter(ev);
    }

    /** poll_add once there is room. */
    method Enter(ev: Id)
      requires nfds < slots.Length && es.fd(ev) < index.Length && index[es.fd(ev)] <= nfds
      modifies this`nfds, slots, index
      ensures Value() == Install(es, old(Value()), ev)
    {
      hide Place, Watch;
      var i := FindPlace(es.fd(ev));
      WatchAt(i, ev);
    }

    /** The slot that idxplus1_by_fd names, or the next one. */
    method FindPlace(fd: nat) returns (i: nat)
      requires nfds < slots.Length && fd < index.Length && index[fd] <= nfds
      modifies this`nfds, slots, index
      ensures i < slots.Length && (Value(), i) == Place(old(Value()), fd)
    {
      if index[fd] > 0 {
        return index[fd] - 1;
      }
      i := nfds;
      nfds := nfds + 1;
      slots[i] := slots[i].(fd := fd, pollIn := false, pollOut := false, reader := None, writer := None);
      index[fd] := i + 1;
    }

    method WatchAt(i: nat, ev: Id)
      requires i < slots.Length
      modifies slots
      ensures slots[..] == old(slots[..])[i := Watch(es, old(slots[i]), ev)]
    {
      slots[i] := slots[i].(what := NOTHING);
      if es.wantsWrite(ev) {
        slots[i] := slots[i].(pollOut := true, writer := Some(ev));
      }
      if es.wantsRead(ev) {
        slots[i] := slots[i].(pollIn := true, reader := Some(ev));
      }
    }

    method PollDel(ev: Id)
      requires nfds <= slots.Length
      requires es.fd(ev) < index.Length ==> index[es.fd(ev)] <= nfds
      requires forall i :: 0 <= i < nfds ==> slots[i].fd < index.Length
      modifies this`nfds, slots, index
      ensures Value() == Del(es, old(Value()), ev) && slots.Length == old(slots.Length)
    {
      if !es.wantsRead(ev) && !es.wantsWrite(ev) {
        return;
      }
      var fd := es.fd(ev);
      if fd >= index.Length {
        return;
      }
      var i := index[fd] - 1;
      if i < 0 {
        return;
      }
      ghost var before := Value();
      slots[i] := Unwatch(es, slots[i], ev);
      if slots[i].pollIn || slots[i].pollOut {
        return;
      }
      ghost var q := Value();
      hide Unwatch;
      DropSlot(i, fd);
    }

    method DropSlot(i: nat, fd: nat)
      requires i < nfds <= slots.Length && fd < index.Length && slots[nfds - 1].fd < index.Length
      modifies this`nfds, slots, index
      ensures Value() == SwapRemove(old(Value()), i, fd)
    {
      index[fd] := 0;
      nfds := nfds - 1;
      if i != nfds {
        slots[i] := slots[nfds];
        index[slots[i].fd] := i + 1;
      }
    }

    /** event_del, as far as the poll set goes, for an event that does not persist. */
    method DelIfOnce(ev: Option<Id>)
      requires Valid(es, Value())
      modifies this`nfds, slots, index
      ensures Value() == DelUnlessPersist(es, old(Value()), ev)
    {
      if ev.Some? && !es.persists(ev.value) {
        Bounds(es, Value());
        hide Valid;
        PollDel(ev.value);
      }
    }

    /** The body of the loop of poll_dispatch for entry i: event_del, then event_active. */
    method VisitSlot(i: nat) returns (made: seq<Delivery>)
      requires Valid(es, Value()) && i < slots.Length && SlotOk(es, slots[i]) && Intact(slots[i], Value(), i)
      modifies this`nfds, slots, index
      ensures Value() == Visit(es, old(Value()), old(slots[i])) && made == Deliveries(es, old(slots[i]))
    {
      var s := slots[i];
      FirstDelValid(es, Value(), s, i);
      hide Valid, SlotOk, Intact, Del, DelUnlessPersist;
      var what := s.what;
      if what.hup {
        what := What(true, true, true);
      }
      var r, w := None, None;
      if what.in_ {
        r := s.reader;
      }
      if what.out {
        w := s.writer;
      }
      made := [];
      if r.Some? {
        DelIfOnce(r);
        made := made + [Delivery(r.value, what.in_ && es.wantsRead(r.value), what.out && es.wantsWrite(r.value))];
      }
      if w.Some? && w != r {
        DelIfOnce(w);
        made := made + [Delivery(w.value, what.in_ && es.wantsRead(w.value), what.out && es.wantsWrite(w.value))];
      }
      NoneStays(es, old(Value()), r);
      NoneStays(es, DelUnlessPersist(es, old(Value()), r), w);
    }

    /** poll_dispatch; whats is what poll reported for the entries of the set. */
    method PollDispatch(whats: seq<What>) returns (log: seq<Delivery>)
      requires Valid(es, Value()) && |whats| == nfds
      modifies this`nfds, slots, index
      ensures (Value(), log) == Walk(es, Reported(old(Value()), whats), 0, |whats|)
    {
      ReportedValid(es, Value(), whats);
      Report(whats);
      log := WalkSlots();
    }

    method Report(whats: seq<What>)
      requires |whats| == nfds <= slots.Length
      modifies slots
      ensures Value() == Reported(old(Value()), whats)
    {
      forall i | 0 <= i < |whats| {
        slots[i] := slots[i].(what := whats[i]);
      }
    }

    method WalkSlots() returns (log: seq<Delivery>)
      requires Valid(es, Value())
      modifies this`nfds, slots, index
      ensures (Value(), log) == Walk(es, old(Value()), 0, old(nfds))
    {
      var end := nfds;
      ghost var start := Value();
      log := [];
      var i := 0;
      AllIntact(start);
      assert Ahead(es, start, start, 0);
      hide Valid, Visit, Deliveries, SlotOk, Indexed, Intact, Walk, Ahead;
      NothingYet(Walk(es, start, 0, end).1);
      while i < end
        invariant 0 <= i <= end == start.nfds <= slots.Length
        invariant Valid(es, Value()) && Indexed(Value()) && Ahead(es, start, Value(), i)
        invariant Walk(es, start, 0, end) == (Walk(es, Value(), i, end).0, log + Walk(es, Value(), i, end).1)
      {
        ghost var p := Value();
        IntactAt(es, start, p, i);
        VisitAhead(es, start, p, i);
        WalkStep(es, p, i, end);
        var made := VisitSlot(i);
        Associate(log, made, Walk(es, Value(), i + 1, end).1);
        log := log + made;
        i := i + 1;
        IndexedOf(es, Value());
      }
      WalkDone(es, Value(), end);
      assert log + [] == log;
    }
  }

  lemma NothingYet(log: seq<Delivery>)
    ensures [] + log == log
  {
  }

  lemma Associate(a: seq<Delivery>, b: seq<Delivery>, c: seq<Delivery>)
    ensures a + (b + c) == (a + b) + c
  {
  }

  lemma WalkDone(es: Events, p: Pop, end: nat)
    requires end <= |p.slots|
    ensures Walk(es, p, end, end) == (p, [])
  {
  }

  lemma WalkStep(es: Events, p: Pop, i: nat, end: nat)
    requires i < end <= |p.slots| && end <= |Visit(es, p, p.slots[i]).slots|
    ensures var q := Visit(es, p, p.slots[i]);
      Walk(es, p, i, end) == (Walk(es, q, i + 1, end).0, Deliveries(es, p.slots[i]) + Walk(es, q, i + 1, end).1)
  {
  }

  lemma NoneStays(es: Events, p: Pop, ev: Option<Id>)
    ensures ev.None? ==> DelUnlessPersist(es, p, ev) == p
  {
  }

  /** The set is valid between the two deletions of a visit. */
  lemma FirstDelValid(es: Events, p: Pop, s: Slot, i: nat)
    requires Valid(es, p) && SlotOk(es, s) && Intact(s, p, i)
    ensures Valid(es, DelUnlessPersist(es, p, ReadyReader(s)))
  {
    var r := ReadyReader(s);
    if r.Some? {
      ReadyWatched(es, p, s, r.value);
      hide Valid, Del, Watched, SlotOk;
      if !es.persists(r.value) {
        DelReady(es, p, r.value, i, s.fd);
      }
    }
  }

  /** The set after the poll system call has written the revents fields. */
  function Reported(p: Pop, whats: seq<What>): Pop {
    p.(slots := seq(|p.slots|, i requires 0 <= i < |p.slots| =>
                                 if i < |whats| then p.slots[i].(what := whats[i]) else p.slots[i]))
  }

  lemma ReportedValid(es: Events, p: Pop, whats: seq<What>)
    requires Valid(es, p)
    ensures Valid(es, Reported(p, whats))
  {
    hide Indexed, SlotOk;
    var q := Reported(p, whats);
    IndexedSize(p);
    SameIndexed(p, q);
    forall i | 0 <= i < q.nfds
      ensures SlotOk(es, q.slots[i])
    {
      assert SlotOk(es, p.slots[i]);
      SameButWhat(es, p.slots[i], q.slots[i]);
    }
  }

  lemma SameButWhat(es: Events, s: Slot, t: Slot)
    requires SlotOk(es, s) && t == s.(what := t.what)
    ensures SlotOk(es, t)
  {
  }

  lemma Bounds(es: Events, p: Pop)
    requires Valid(es, p)
    ensures forall f :: 0 <= f < |p.index| ==> p.index[f] <= p.nfds
    ensures forall i :: 0 <= i < p.nfds ==> p.slots[i].fd < |p.index|
  {
    hide SlotOk;
  }

  lemma AllIntact(p: Pop)
    requires Indexed(p)
    ensures forall j :: 0 <= j < p.nfds ==> Intact(p.slots[j], p, j)
  {
  }

  lemma IndexedOf(es: Events, p: Pop)
    requires Valid(es, p)
    ensures Indexed(p)
  {
  }

  lemma IntactAt(es: Events, start: Pop, p: Pop, i: nat)
    requires Valid(es, start) && Indexed(p) && i < start.nfds && Ahead(es, start, p, i)
    ensures i < |p.slots| && p.slots[i] == start.slots[i] && SlotOk(es, p.slots[i]) && Intact(p.slots[i], p, i)
  {
    assert Intact(start.slots[i], p, i);
  }
}
