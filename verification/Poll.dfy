/** The poll backend of libevent: the set of polled descriptors, and the walk of poll_dispatch
    over it while event_del swap-removes entries. */
module Poll {
  import opened Seqs

  type Id = int

  /** The fields of the events: the descriptor, what it waits for, and whether it stays. */
  datatype Events = Events(fd: Id -> nat, wantsRead: Id -> bool, wantsWrite: Id -> bool, persists: Id -> bool)

  /** The revents of a pollfd; hup stands for POLLHUP and POLLERR. */
  datatype What = What(in_: bool, out: bool, hup: bool)

  const NOTHING := What(false, false, false)

  /** One entry of event_set, event_r_back and event_w_back. */
  datatype Slot = Slot(fd: nat, pollIn: bool, pollOut: bool, what: What, reader: Option<Id>, writer: Option<Id>)

  const UNUSED := Slot(0, false, false, NOTHING, None, None)

  /** slots keeps what was in memory beyond nfds: poll_dispatch looks there. */
  datatype Pop = Pop(slots: seq<Slot>, nfds: nat, index: seq<int>)

  // ---- poll_add -----------------------------------------------------------------------------

  function NextCount(count: nat): nat {
    if count < 32 then 32 else count * 2
  }

  /** The doubling loop for idxplus1_by_fd. */
  function CountFor(count: nat, fd: nat): (n: nat)
    requires count > 0
    ensures n > fd && n >= count
    decreases if count <= fd then fd - count + 1 else 0
  {
    if count <= fd then CountFor(count * 2, fd) else count
  }

  function GrowSlots(p: Pop): Pop {
    if p.nfds + 1 >= |p.slots| then
      var n := NextCount(|p.slots|);
      p.(slots := p.slots + seq(n - |p.slots|, _ => UNUSED))
    else p
  }

  function GrowIndex(p: Pop, fd: nat): Pop {
    if fd >= |p.index| then
      var n := CountFor(NextCount(|p.index|), fd);
      p.(index := p.index + seq(n - |p.index|, _ => 0))
    else p
  }

  /** The slot of a descriptor, made if there is none. */
  function Place(p: Pop, fd: nat): (Pop, nat)
    requires fd < |p.index| && p.nfds < |p.slots|
  {
    var i := p.index[fd] - 1;
    if i >= 0 then (p, i)
    else
      var s := p.slots[p.nfds].(fd := fd, pollIn := false, pollOut := false, reader := None, writer := None);
      (p.(slots := p.slots[p.nfds := s], nfds := p.nfds + 1, index := p.index[fd := p.nfds + 1]), p.nfds)
  }

  function Watch(es: Events, s: Slot, ev: Id): Slot {
    var t := s.(what := NOTHING);
    var u := if es.wantsWrite(ev) then t.(pollOut := true, writer := Some(ev)) else t;
    if es.wantsRead(ev) then u.(pollIn := true, reader := Some(ev)) else u
  }

  function Add(es: Events, p: Pop, ev: Id): Pop {
    if !es.wantsRead(ev) && !es.wantsWrite(ev) then p
    else
      var q := GrowIndex(GrowSlots(p), es.fd(ev));
      if es.fd(ev) < |q.index| && q.nfds < |q.slots| then Install(es, q, ev) else q
  }

  // ---- poll_del -----------------------------------------------------------------------------

  function Unwatch(es: Events, s: Slot, ev: Id): Slot {
    var t := if es.wantsRead(ev) then s.(pollIn := false, reader := None) else s;
    if es.wantsWrite(ev) then t.(pollOut := false, writer := None) else t
  }

  /** The last entry moves into slot i, which nobody watches any more. */
  function SwapRemove(p: Pop, i: nat, fd: nat): Pop
    requires fd < |p.index| && i < p.nfds <= |p.slots|
  {
    var last := p.nfds - 1;
    var q := p.(index := p.index[fd := 0], nfds := last);
    if i != last then
      var moved := p.slots[last];
      var r := q.(slots := p.slots[i := moved]);
      if moved.fd < |r.index| then r.(index := r.index[moved.fd := i + 1]) else r
    else q
  }

  function Del(es: Events, p: Pop, ev: Id): Pop {
    var fd := es.fd(ev);
    if (!es.wantsRead(ev) && !es.wantsWrite(ev)) || fd >= |p.index| then p
    else
      var i := p.index[fd] - 1;
      if i < 0 || i >= p.nfds || p.nfds > |p.slots| then p
      else
        var s := Unwatch(es, p.slots[i], ev);
        var q := p.(slots := p.slots[i := s]);
        if s.pollIn || s.pollOut then q else SwapRemove(q, i, fd)
  }

  // ---- the walk of poll_dispatch ----------------------------------------------------------------

  /** An event made active, and for which of its conditions. */
  datatype Delivery = Delivery(ev: Id, read: bool, write: bool)

  function ReadyReader(s: Slot): Option<Id> {
    if s.what.in_ || s.what.hup then s.reader else None
  }

  function ReadyWriter(s: Slot): Option<Id> {
    if s.what.out || s.what.hup then s.writer else None
  }

  /** What a slot leads to event_active being called for. */
  function Deliveries(es: Events, s: Slot): seq<Delivery> {
    var canRead, canWrite := s.what.in_ || s.what.hup, s.what.out || s.what.hup;
    var r, w := ReadyReader(s), ReadyWriter(s);
    (if r.Some? then [Delivery(r.value, canRead && es.wantsRead(r.value), canWrite && es.wantsWrite(r.value))]
     else [])
    + (if w.Some? && w != r then
         [Delivery(w.value, canRead && es.wantsRead(w.value), canWrite && es.wantsWrite(w.value))]
       else [])
  }

  function DelUnlessPersist(es: Events, p: Pop, ev: Option<Id>): Pop {
    if ev.Some? && !es.persists(ev.value) then Del(es, p, ev.value) else p
  }

  /** The set after slot s, as it was read, has been dealt with. */
  function Visit(es: Events, p: Pop, s: Slot): Pop {
    var r, w := ReadyReader(s), ReadyWriter(s);
    var q := DelUnlessPersist(es, p, r);
    if w != r then DelUnlessPersist(es, q, w) else q
  }

  /** The walk from entry i to the number of entries there were when poll returned. */
  function Walk(es: Events, p: Pop, i: nat, end: nat): (Pop, seq<Delivery>)
    requires i <= end <= |p.slots|
    decreases end - i
  {
    if i == end then (p, [])
    else
      var q := Visit(es, p, p.slots[i]);
      if end <= |q.slots| then
        var (r, rest) := Walk(es, q, i + 1, end);
        (r, Deliveries(es, p.slots[i]) + rest)
      else (q, [])
  }

  // ---- the invariant ------------------------------------------------------------------------------

  /** A slot watches what it has events for, and an event that waits for both is both. */
  ghost predicate SlotOk(es: Events, s: Slot) {
    && (s.pollIn <==> s.reader.Some?) && (s.pollOut <==> s.writer.Some?) && (s.pollIn || s.pollOut)
    && (s.reader.Some? ==> es.fd(s.reader.value) == s.fd && es.wantsRead(s.reader.value))
    && (s.writer.Some? ==> es.fd(s.writer.value) == s.fd && es.wantsWrite(s.writer.value))
    && (s.reader.Some? && es.wantsWrite(s.reader.value) ==> s.writer == s.reader)
    && (s.writer.Some? && es.wantsRead(s.writer.value) ==> s.reader == s.writer)
  }

  /** idxplus1_by_fd and event_set are inverse to each other. */
  ghost predicate Indexed(p: Pop) {
    p.nfds <= |p.slots|
    && SlotsIndexed(p) && IndexSlotted(p)
  }

  ghost predicate SlotsIndexed(p: Pop)
    requires p.nfds <= |p.slots|
  {
    forall i :: 0 <= i < p.nfds ==> p.slots[i].fd < |p.index| && p.index[p.slots[i].fd] == i + 1
  }

  ghost predicate IndexSlotted(p: Pop)
    requires p.nfds <= |p.slots|
  {
    forall f :: 0 <= f < |p.index| ==>
      0 <= p.index[f] <= p.nfds && (p.index[f] > 0 ==> p.slots[p.index[f] - 1].fd == f)
  }

  ghost predicate Valid(es: Events, p: Pop) {
    Indexed(p) && forall i :: 0 <= i < p.nfds ==> SlotOk(es, p.slots[i])
  }

  /** Who waits for a descriptor. */
  datatype Waiters = Waiters(reader: Option<Id>, writer: Option<Id>)

  ghost function Registered(p: Pop, fd: nat): Waiters
    requires Indexed(p)
  {
    if fd < |p.index| && p.index[fd] > 0 then
      var s := p.slots[p.index[fd] - 1];
      Waiters(s.reader, s.writer)
    else Waiters(None, None)
  }

  function Joined(es: Events, w: Waiters, ev: Id): Waiters {
    Waiters(if es.wantsRead(ev) then Some(ev) else w.reader, if es.wantsWrite(ev) then Some(ev) else w.writer)
  }

  function Left(es: Events, w: Waiters, ev: Id): Waiters {
    Waiters(if es.wantsRead(ev) then None else w.reader, if es.wantsWrite(ev) then None else w.writer)
  }

  /** What the caller sees to: one reader and one writer a descriptor. */
  ghost predicate Room(es: Events, w: Waiters, ev: Id) {
    (es.wantsRead(ev) ==> w.reader == None || w.reader == Some(ev))
    && (es.wantsWrite(ev) ==> w.writer == None || w.writer == Some(ev))
  }

  // ---- poll_add keeps the invariant and is the map update ------------------------------------------

  lemma GrowSlotsKeeps(p: Pop)
    requires Indexed(p)
    ensures var q := GrowSlots(p);
      && q.nfds == p.nfds < |q.slots| && q.index == p.index && |q.slots| >= |p.slots|
      && forall i :: 0 <= i < p.nfds ==> q.slots[i] == p.slots[i]
  {
    hide SlotsIndexed, IndexSlotted;
  }

  lemma GrowSlotsValid(es: Events, p: Pop)
    requires Valid(es, p)
    ensures var q := GrowSlots(p);
      && Valid(es, q) && q.nfds < |q.slots| && q.index == p.index
      && forall f :: Registered(q, f) == Registered(p, f)
  {
    hide SlotOk, GrowSlots;
    GrowSlotsKeeps(p);
    SameSlots(es, p, GrowSlots(p));
  }

  lemma SlotAt(p: Pop, i: nat)
    requires Indexed(p) && i < p.nfds
    ensures p.nfds <= |p.slots| && p.slots[i].fd < |p.index| && p.index[p.slots[i].fd] == i + 1
  {
    hide IndexSlotted;
  }

  lemma IndexAt(p: Pop, f: nat)
    requires Indexed(p) && f < |p.index|
    ensures 0 <= p.index[f] <= p.nfds <= |p.slots| && (p.index[f] > 0 ==> p.slots[p.index[f] - 1].fd == f)
  {
    hide SlotsIndexed;
  }

  /** Nothing that counts depends on the memory behind the entries. */
  lemma SameSlots(es: Events, p: Pop, q: Pop)
    requires Valid(es, p) && q.nfds == p.nfds && q.index == p.index && |q.slots| >= |p.slots|
    requires forall i :: 0 <= i < p.nfds ==> q.slots[i] == p.slots[i]
    ensures Valid(es, q) && forall f :: Registered(q, f) == Registered(p, f)
  {
    hide SlotOk, Indexed;
    SameIndexed(p, q);
    forall f: nat ensures Registered(q, f) == Registered(p, f) {
      SameRegistered(p, q, f);
    }
  }

  lemma SameIndexed(p: Pop, q: Pop)
    requires Indexed(p) && q.nfds == p.nfds && q.index == p.index && |q.slots| >= |p.slots|
    requires forall i :: 0 <= i < p.nfds && i < |p.slots| ==> q.slots[i].fd == p.slots[i].fd
    ensures Indexed(q)
  {
    hide Indexed, IndexSlotted, SlotsIndexed;
    IndexedSize(p);
    SameIndex(p, q);
    SameSlotted(p, q);
    IndexedFrom(q);
  }

  lemma SameSlotted(p: Pop, q: Pop)
    requires Indexed(p) && q.nfds == p.nfds <= |p.slots| && q.index == p.index && |q.slots| >= |p.slots|
    requires forall i :: 0 <= i < p.nfds ==> q.slots[i].fd == p.slots[i].fd
    ensures SlotsIndexed(q)
  {
    hide Indexed, IndexSlotted;
    forall i | 0 <= i < q.nfds ensures q.slots[i].fd < |q.index| && q.index[q.slots[i].fd] == i + 1 {
      SlotAt(p, i);
    }
  }

  lemma SameIndex(p: Pop, q: Pop)
    requires Indexed(p) && q.nfds == p.nfds <= |p.slots| && q.index == p.index && |q.slots| >= |p.slots|
    requires forall i :: 0 <= i < p.nfds ==> q.slots[i].fd == p.slots[i].fd
    ensures IndexSlotted(q)
  {
    hide Indexed, SlotsIndexed;
    forall f | 0 <= f < |q.index|
      ensures 0 <= q.index[f] <= q.nfds && (q.index[f] > 0 ==> q.slots[q.index[f] - 1].fd == f)
    {
      IndexAt(p, f);
    }
  }

  lemma IndexedSize(p: Pop)
    requires Indexed(p)
    ensures p.nfds <= |p.slots|
  {
    hide SlotsIndexed, IndexSlotted;
  }

  lemma IndexedFrom(p: Pop)
    requires p.nfds <= |p.slots| && SlotsIndexed(p) && IndexSlotted(p)
    ensures Indexed(p)
  {
    hide SlotsIndexed, IndexSlotted;
  }

  lemma SameRegistered(p: Pop, q: Pop, f: nat)
    requires Indexed(p) && Indexed(q) && q.nfds == p.nfds && q.index == p.index
    requires forall i :: 0 <= i < p.nfds && i < |q.slots| && i < |p.slots| ==> q.slots[i] == p.slots[i]
    ensures Registered(q, f) == Registered(p, f)
  {
    hide Indexed;
    if f < |p.index| {
      IndexAt(p, f);
      IndexAt(q, f);
    }
  }

  lemma GrowIndexValid(es: Events, p: Pop, fd: nat)
    requires Valid(es, p)
    ensures var q := GrowIndex(p, fd);
      && Valid(es, q) && fd < |q.index| && q.nfds == p.nfds && q.slots == p.slots
      && forall f :: Registered(q, f) == Registered(p, f)
  {
    hide SlotOk;
  }

  lemma GrowValid(es: Events, p: Pop, fd: nat)
    requires Valid(es, p)
    ensures var q := GrowIndex(GrowSlots(p), fd);
      && Valid(es, q) && fd < |q.index| && q.nfds < |q.slots|
      && forall f :: Registered(q, f) == Registered(p, f)
  {
    hide SlotOk, Indexed, GrowSlots, GrowIndex;
    GrowSlotsValid(es, p);
    GrowIndexValid(es, GrowSlots(p), fd);
  }

  /** Rewriting a slot for the same descriptor. */
  lemma UpdateSlot(es: Events, p: Pop, i: nat, s: Slot)
    requires Valid(es, p) && i < p.nfds && s.fd == p.slots[i].fd && SlotOk(es, s)
    ensures var q := p.(slots := p.slots[i := s]);
      && Valid(es, q)
      && forall f :: Registered(q, f) == if f == s.fd then Waiters(s.reader, s.writer) else Registered(p, f)
  {
    hide SlotOk;
    UpdateIndexed(p, i, s);
    var q := p.(slots := p.slots[i := s]);
    assert Indexed(q) by {
      hide SlotsIndexed, IndexSlotted;
    }
    assert p.index[s.fd] == i + 1;
    forall f: nat
      ensures Registered(q, f) == if f == s.fd then Waiters(s.reader, s.writer) else Registered(p, f)
    {
      if f < |p.index| && p.index[f] > 0 && f != s.fd {
        assert p.slots[p.index[f] - 1].fd == f;
        assert p.index[f] != i + 1;
      }
    }
  }

  lemma UpdateIndexed(p: Pop, i: nat, s: Slot)
    requires Indexed(p) && i < p.nfds && s.fd == p.slots[i].fd
    ensures var q := p.(slots := p.slots[i := s]); SlotsIndexed(q) && IndexSlotted(q)
  {
    hide Indexed, SlotsIndexed;
    IndexedSize(p);
    UpdateSlotsIndexed(p, i, s);
    var q := p.(slots := p.slots[i := s]);
    forall f | 0 <= f < |q.index|
      ensures 0 <= q.index[f] <= q.nfds && (q.index[f] > 0 ==> q.slots[q.index[f] - 1].fd == f)
    {
      IndexAt(p, f);
    }
  }

  lemma UpdateSlotsIndexed(p: Pop, i: nat, s: Slot)
    requires Indexed(p) && i < p.nfds && s.fd == p.slots[i].fd
    ensures SlotsIndexed(p.(slots := p.slots[i := s]))
  {
    hide IndexSlotted;
  }

  /** A slot for a descriptor that had none. */
  lemma AppendSlot(es: Events, p: Pop, s: Slot)
    requires Valid(es, p) && p.nfds < |p.slots| && s.fd < |p.index| && p.index[s.fd] == 0 && SlotOk(es, s)
    ensures var q := p.(slots := p.slots[p.nfds := s], nfds := p.nfds + 1, index := p.index[s.fd := p.nfds + 1]);
      && Valid(es, q)
      && forall f :: Registered(q, f) == if f == s.fd then Waiters(s.reader, s.writer) else Registered(p, f)
  {
    hide SlotOk, Indexed;
    AppendIndexed(p, s);
    var q := p.(slots := p.slots[p.nfds := s], nfds := p.nfds + 1, index := p.index[s.fd := p.nfds + 1]);
    forall f: nat
      ensures Registered(q, f) == if f == s.fd then Waiters(s.reader, s.writer) else Registered(p, f)
    {
      if f < |p.index| {
        IndexAt(p, f);
      }
    }
  }

  lemma AppendIndexed(p: Pop, s: Slot)
    requires Indexed(p) && p.nfds < |p.slots| && s.fd < |p.index| && p.index[s.fd] == 0
    ensures Indexed(p.(slots := p.slots[p.nfds := s], nfds := p.nfds + 1, index := p.index[s.fd := p.nfds + 1]))
  {
    hide Indexed, SlotsIndexed, IndexSlotted;
    var q := p.(slots := p.slots[p.nfds := s], nfds := p.nfds + 1, index := p.index[s.fd := p.nfds + 1]);
    AppendIndex(p, q, s);
    AppendSlotted(p, q, s);
    IndexedFrom(q);
  }

  lemma AppendSlotted(p: Pop, q: Pop, s: Slot)
    requires Indexed(p) && p.nfds < |p.slots| && s.fd < |p.index| && p.index[s.fd] == 0
    requires q == p.(slots := p.slots[p.nfds := s], nfds := p.nfds + 1, index := p.index[s.fd := p.nfds + 1])
    ensures SlotsIndexed(q)
  {
    hide Indexed, IndexSlotted;
    forall i | 0 <= i < q.nfds ensures q.slots[i].fd < |q.index| && q.index[q.slots[i].fd] == i + 1 {
      if i < p.nfds {
        SlotAt(p, i);
      }
    }
  }

  lemma AppendIndex(p: Pop, q: Pop, s: Slot)
    requires Indexed(p) && p.nfds < |p.slots| && s.fd < |p.index| && p.index[s.fd] == 0
    requires q == p.(slots := p.slots[p.nfds := s], nfds := p.nfds + 1, index := p.index[s.fd := p.nfds + 1])
    ensures IndexSlotted(q)
  {
    hide Indexed, SlotsIndexed;
    forall f | 0 <= f < |q.index|
      ensures 0 <= q.index[f] <= q.nfds && (q.index[f] > 0 ==> q.slots[q.index[f] - 1].fd == f)
    {
      IndexAt(p, f);
    }
  }

  /** poll_add once the arrays are large enough. */
  function Install(es: Events, p: Pop, ev: Id): Pop
    requires es.fd(ev) < |p.index| && p.nfds < |p.slots|
  {
    var (r, i) := Place(p, es.fd(ev));
    if i < |r.slots| then r.(slots := r.slots[i := Watch(es, r.slots[i], ev)]) else r
  }

  lemma InstallRegisters(es: Events, p: Pop, ev: Id)
    requires Valid(es, p) && es.fd(ev) < |p.index| && p.nfds < |p.slots| && (es.wantsRead(ev) || es.wantsWrite(ev))
    requires Room(es, Registered(p, es.fd(ev)), ev)
    ensures var q := Install(es, p, ev);
      && Valid(es, q)
      && forall f :: Registered(q, f) ==
           if f == es.fd(ev) then Joined(es, Registered(p, f), ev) else Registered(p, f)
  {
    InstallKnown(es, p, ev);
    hide Valid, Indexed, SlotOk, Install;
    if p.index[es.fd(ev)] > 0 {
      InstallOld(es, p, ev);
    } else {
      InstallNew(es, p, ev);
    }
  }

  lemma InstallKnown(es: Events, p: Pop, ev: Id)
    requires Indexed(p) && es.fd(ev) < |p.index|
    ensures var i := p.index[es.fd(ev)]; 0 <= i <= p.nfds && (i > 0 ==> p.slots[i - 1].fd == es.fd(ev))
  {
  }

  lemma InstallOld(es: Events, p: Pop, ev: Id)
    requires Valid(es, p) && es.fd(ev) < |p.index| && p.nfds < |p.slots| && (es.wantsRead(ev) || es.wantsWrite(ev))
    requires Room(es, Registered(p, es.fd(ev)), ev) && p.index[es.fd(ev)] > 0
    ensures var q := Install(es, p, ev);
      && Valid(es, q)
      && forall f :: Registered(q, f) ==
           if f == es.fd(ev) then Joined(es, Registered(p, f), ev) else Registered(p, f)
  {
    InstallKnown(es, p, ev);
    var i := p.index[es.fd(ev)] - 1;
    var s := p.slots[i];
    assert SlotOk(es, s);
    hide SlotOk, SlotsIndexed, IndexSlotted;
    assert Registered(p, s.fd) == Waiters(s.reader, s.writer);
    WatchOk(es, s, ev);
    UpdateSlot(es, p, i, Watch(es, s, ev));
    hide Valid, Indexed, Watch;
    assert Install(es, p, ev) == p.(slots := p.slots[i := Watch(es, s, ev)]);
  }

  lemma InstallNew(es: Events, p: Pop, ev: Id)
    requires Valid(es, p) && es.fd(ev) < |p.index| && p.nfds < |p.slots| && (es.wantsRead(ev) || es.wantsWrite(ev))
    requires p.index[es.fd(ev)] == 0
    ensures var q := Install(es, p, ev);
      && Valid(es, q)
      && forall f :: Registered(q, f) ==
           if f == es.fd(ev) then Joined(es, Registered(p, f), ev) else Registered(p, f)
  {
    hide SlotOk, SlotsIndexed, IndexSlotted;
    var fd := es.fd(ev);
    var s := p.slots[p.nfds].(fd := fd, pollIn := false, pollOut := false, reader := None, writer := None);
    NewWatchOk(es, s, ev);
    AppendSlot(es, p, Watch(es, s, ev));
    assert Registered(p, fd) == Waiters(None, None);
    hide Valid, Indexed, Watch;
    var (r, j) := Place(p, fd);
    assert r.slots[j := Watch(es, s, ev)] == p.slots[p.nfds := Watch(es, s, ev)];
  }

  lemma WatchOk(es: Events, s: Slot, ev: Id)
    requires SlotOk(es, s) && s.fd == es.fd(ev) && (es.wantsRead(ev) || es.wantsWrite(ev))
    requires Room(es, Waiters(s.reader, s.writer), ev)
    ensures var u := Watch(es, s, ev);
      SlotOk(es, u) && u.fd == s.fd && Waiters(u.reader, u.writer) == Joined(es, Waiters(s.reader, s.writer), ev)
  {
  }

  lemma NewWatchOk(es: Events, s: Slot, ev: Id)
    requires s.fd == es.fd(ev) && (es.wantsRead(ev) || es.wantsWrite(ev))
    requires !s.pollIn && !s.pollOut && s.reader == None && s.writer == None
    ensures var u := Watch(es, s, ev);
      SlotOk(es, u) && u.fd == s.fd && Waiters(u.reader, u.writer) == Joined(es, Waiters(None, None), ev)
  {
  }

  lemma AddRegisters(es: Events, p: Pop, ev: Id)
    requires Valid(es, p) && (es.wantsRead(ev) || es.wantsWrite(ev)) && Room(es, Registered(p, es.fd(ev)), ev)
    ensures var q := Add(es, p, ev);
      && Valid(es, q)
      && forall f :: Registered(q, f) ==
           if f == es.fd(ev) then Joined(es, Registered(p, f), ev) else Registered(p, f)
  {
    GrowValid(es, p, es.fd(ev));
    var q := GrowIndex(GrowSlots(p), es.fd(ev));
    assert Registered(q, es.fd(ev)) == Registered(p, es.fd(ev));
    hide Valid, Registered, GrowIndex, GrowSlots, Install, Joined;
    InstallRegisters(es, q, ev);
  }

  // ---- poll_del --------------------------------------------------------------------------------------

  /** An event that the set watches for all it waits for. */
  ghost predicate Watched(es: Events, p: Pop, ev: Id)
    requires Indexed(p)
  {
    (es.wantsRead(ev) || es.wantsWrite(ev))
    && (es.wantsRead(ev) ==> Registered(p, es.fd(ev)).reader == Some(ev))
    && (es.wantsWrite(ev) ==> Registered(p, es.fd(ev)).writer == Some(ev))
  }

  lemma SwapRemoveSlotsIndexed(p: Pop, i: nat, fd: nat)
    requires Indexed(p) && i < p.nfds && fd == p.slots[i].fd
    ensures var q := SwapRemove(p, i, fd); q.nfds <= |q.slots| && SlotsIndexed(q)
  {
    hide Indexed;
    SlotAt(p, i);
    SlotAt(p, p.nfds - 1);
    var q := SwapRemove(p, i, fd);
    forall j | 0 <= j < q.nfds ensures q.slots[j].fd < |q.index| && q.index[q.slots[j].fd] == j + 1 {
      SlotAt(p, j);
    }
  }

  lemma SwapRemoveIndexSlotted(p: Pop, i: nat, fd: nat)
    requires Indexed(p) && i < p.nfds && fd == p.slots[i].fd
    ensures var q := SwapRemove(p, i, fd); q.nfds <= |q.slots| && IndexSlotted(q)
  {
    hide Indexed;
    SlotAt(p, i);
    SlotAt(p, p.nfds - 1);
    var q := SwapRemove(p, i, fd);
    forall f | 0 <= f < |q.index|
      ensures 0 <= q.index[f] <= q.nfds && (q.index[f] > 0 ==> q.slots[q.index[f] - 1].fd == f)
    {
      IndexAt(p, f);
    }
  }

  lemma SwapRemoveIndexed(p: Pop, i: nat, fd: nat)
    requires Indexed(p) && i < p.nfds && fd == p.slots[i].fd
    ensures Indexed(SwapRemove(p, i, fd))
  {
    hide Indexed, SlotsIndexed, IndexSlotted, SwapRemove;
    SlotAt(p, i);
    SwapRemoveSlotsIndexed(p, i, fd);
    SwapRemoveIndexSlotted(p, i, fd);
    IndexedFrom(SwapRemove(p, i, fd));
  }

  /** Where the descriptors are after the swap. */
  lemma SwapRemoveAt(p: Pop, i: nat, fd: nat, f: nat)
    requires Indexed(p) && i < p.nfds && fd == p.slots[i].fd && f < |p.index|
    ensures var q, last := SwapRemove(p, i, fd), p.nfds - 1;
      && |q.index| == |p.index| && |q.slots| == |p.slots|
      && (f == fd ==> q.index[f] == 0)
      && (f != fd && p.index[f] == last + 1 ==> q.index[f] == i + 1 && q.slots[i] == p.slots[last])
      && (f != fd && p.index[f] != last + 1 ==>
            q.index[f] == p.index[f] && (p.index[f] > 0 ==> q.slots[p.index[f] - 1] == p.slots[p.index[f] - 1]))
  {
    hide Indexed;
    var last := p.nfds - 1;
    SlotAt(p, i);
    SlotAt(p, last);
    IndexAt(p, f);
  }

  lemma SwapRemoveRegisters(p: Pop, i: nat, fd: nat, f: nat)
    requires Indexed(p) && i < p.nfds && fd == p.slots[i].fd
    ensures var q := SwapRemove(p, i, fd);
      && Indexed(q)
      && Registered(q, f) == if f == fd then Waiters(None, None) else Registered(p, f)
  {
    hide Indexed, SwapRemove;
    SlotAt(p, i);
    SwapRemoveIndexed(p, i, fd);
    SwapSizes(p, i, fd);
    if f < |p.index| {
      IndexAt(p, f);
      SwapRemoveAt(p, i, fd, f);
    }
  }

  lemma SwapSizes(p: Pop, i: nat, fd: nat)
    requires fd < |p.index| && i < p.nfds <= |p.slots|
    ensures |SwapRemove(p, i, fd).index| == |p.index|
  {
  }

  lemma SwapRemoveSlots(es: Events, p: Pop, i: nat, fd: nat)
    requires Indexed(p) && i < p.nfds && fd == p.slots[i].fd
    requires forall j :: 0 <= j < p.nfds && j != i ==> SlotOk(es, p.slots[j])
    ensures var q := SwapRemove(p, i, fd);
      q.nfds == p.nfds - 1 && |q.slots| == |p.slots| && forall j :: 0 <= j < q.nfds ==> SlotOk(es, q.slots[j])
  {
    hide SlotOk;
  }

  /** The slot of a watched event, and what becomes of it. */
  lemma UnwatchOk(es: Events, s: Slot, ev: Id)
    requires SlotOk(es, s) && (es.wantsRead(ev) || es.wantsWrite(ev))
    requires es.wantsRead(ev) ==> s.reader == Some(ev)
    requires es.wantsWrite(ev) ==> s.writer == Some(ev)
    ensures var u := Unwatch(es, s, ev);
      && u.fd == s.fd == es.fd(ev)
      && Waiters(u.reader, u.writer) == Left(es, Waiters(s.reader, s.writer), ev)
      && (u.pollIn || u.pollOut ==> SlotOk(es, u))
      && (!u.pollIn && !u.pollOut ==> u.reader == None && u.writer == None)
  {
  }

  /** Where poll_del finds a watched event. */
  lemma DelAt(es: Events, p: Pop, ev: Id)
    requires Valid(es, p) && Watched(es, p, ev)
    ensures var fd := es.fd(ev);
      && fd < |p.index| && 0 < p.index[fd] <= p.nfds <= |p.slots|
      && var s := p.slots[p.index[fd] - 1];
      && s.fd == fd && SlotOk(es, s) && Registered(p, fd) == Waiters(s.reader, s.writer)
      && (es.wantsRead(ev) || es.wantsWrite(ev))
      && (es.wantsRead(ev) ==> s.reader == Some(ev)) && (es.wantsWrite(ev) ==> s.writer == Some(ev))
  {
    hide Indexed, SlotOk;
    if es.fd(ev) < |p.index| {
      IndexAt(p, es.fd(ev));
    }
  }

  lemma DelRegisters(es: Events, p: Pop, ev: Id)
    requires Valid(es, p) && Watched(es, p, ev)
    ensures var q := Del(es, p, ev);
      && Valid(es, q)
      && forall f :: Registered(q, f) ==
           if f == es.fd(ev) then Left(es, Registered(p, f), ev) else Registered(p, f)
  {
    hide Valid, Indexed, Watched, SlotOk, Unwatch, Left, SwapRemove, Registered;
    DelAt(es, p, ev);
    var i := p.index[es.fd(ev)] - 1;
    var s := Unwatch(es, p.slots[i], ev);
    UnwatchOk(es, p.slots[i], ev);
    if s.pollIn || s.pollOut {
      UpdateSlot(es, p, i, s);
    } else {
      Removed(es, p, i, s);
    }
  }

  lemma Removed(es: Events, p: Pop, i: nat, s: Slot)
    requires Valid(es, p) && i < p.nfds && s.fd == p.slots[i].fd
    ensures var q := SwapRemove(p.(slots := p.slots[i := s]), i, s.fd);
      && Valid(es, q)
      && forall f :: Registered(q, f) == if f == s.fd then Waiters(None, None) else Registered(p, f)
  {
    var u := p.(slots := p.slots[i := s]);
    assert Indexed(u) by { SameFds(p, i, s); }
    assert forall j :: 0 <= j < p.nfds && j != i ==> SlotOk(es, u.slots[j]);
    hide SlotOk, Indexed;
    SwapRemoveSlots(es, u, i, s.fd);
    SwapRemoveRegisters(u, i, s.fd, 0);
    forall f
      ensures Registered(SwapRemove(u, i, s.fd), f) == if f == s.fd then Waiters(None, None) else Registered(p, f)
    {
      SwapRemoveRegisters(u, i, s.fd, f);
      if f != s.fd { RegisteredFrame(p, i, s, f); }
    }
    hide SwapRemove, Registered;
  }

  lemma SameFds(p: Pop, i: nat, s: Slot)
    requires Indexed(p) && i < p.nfds && s.fd == p.slots[i].fd
    ensures Indexed(p.(slots := p.slots[i := s]))
  {
    hide Indexed;
    IndexedSize(p);
    SameIndexed(p, p.(slots := p.slots[i := s]));
  }

  lemma RegisteredFrame(p: Pop, i: nat, s: Slot, f: nat)
    requires Indexed(p) && i < p.nfds && s.fd == p.slots[i].fd && f != s.fd
    ensures var u := p.(slots := p.slots[i := s]); Indexed(u) && Registered(u, f) == Registered(p, f)
  {
    SameFds(p, i, s);
  }

  // ---- the walk --------------------------------------------------------------------------------------

  /** Deleting an event writes no slot above its own, and moves no descriptor up. */
  lemma DelFrame(es: Events, p: Pop, ev: Id, top: nat)
    requires Valid(es, p) && Watched(es, p, ev) && p.index[es.fd(ev)] - 1 <= top
    ensures var q := Del(es, p, ev);
      && |q.slots| == |p.slots| && |q.index| == |p.index|
      && (forall j :: top < j < |p.slots| ==> q.slots[j] == p.slots[j])
      && forall f :: 0 <= f < |p.index| ==> q.index[f] <= p.index[f]
  {
    hide SlotOk, Unwatch, Indexed, Registered, SwapRemove, Watched;
    DelAt(es, p, ev);
    var fd := es.fd(ev);
    var i := p.index[fd] - 1;
    var s := Unwatch(es, p.slots[i], ev);
    SwapFrame(p, p.(slots := p.slots[i := s]), i, fd);
  }

  lemma SwapFrame(p: Pop, u: Pop, i: nat, fd: nat)
    requires Indexed(p) && i < p.nfds && fd == p.slots[i].fd && fd < |p.index|
    requires p.nfds <= |p.slots| == |u.slots| && u == p.(slots := u.slots)
    requires forall j :: 0 <= j < |p.slots| && j != i ==> u.slots[j] == p.slots[j]
    ensures var q := SwapRemove(u, i, fd);
      && |q.slots| == |p.slots| && |q.index| == |p.index|
      && (forall j :: i < j < |p.slots| ==> q.slots[j] == p.slots[j])
      && forall f :: 0 <= f < |p.index| ==> q.index[f] <= p.index[f]
  {
    hide Indexed;
    SlotAt(p, p.nfds - 1);
    forall f | 0 <= f < |p.index| ensures SwapRemove(u, i, fd).index[f] <= p.index[f] {
      IndexAt(p, f);
    }
  }

  /** Who waits for a descriptor after its slot has been dealt with: whoever was not ready, or stays. */
  function After(es: Events, s: Slot): Waiters {
    var r, w := ReadyReader(s), ReadyWriter(s);
    var v := if r.Some? && !es.persists(r.value) then Left(es, Waiters(s.reader, s.writer), r.value)
             else Waiters(s.reader, s.writer);
    if w != r && w.Some? && !es.persists(w.value) then Left(es, v, w.value) else v
  }

  /** Entry j, as it was when poll returned, is still in memory, and registered, and no higher. */
  ghost predicate Intact(s: Slot, p: Pop, j: nat)
    requires Indexed(p)
  {
    j < |p.slots| && p.slots[j] == s
    && s.fd < |p.index| && 0 < p.index[s.fd] <= j + 1
    && Registered(p, s.fd) == Waiters(s.reader, s.writer)
  }

  lemma ReadyWatched(es: Events, p: Pop, s: Slot, ev: Id)
    requires Indexed(p) && SlotOk(es, s) && Registered(p, s.fd) == Waiters(s.reader, s.writer)
    requires s.reader == Some(ev) || s.writer == Some(ev)
    ensures Watched(es, p, ev) && es.fd(ev) == s.fd
  {
  }

  /** Deleting a ready event of slot i, which poll_del finds at or below i. */
  lemma DelReady(es: Events, p: Pop, ev: Id, i: nat, g: nat)
    requires Valid(es, p) && Watched(es, p, ev) && es.fd(ev) < |p.index| && p.index[es.fd(ev)] <= i + 1
    ensures var q := Del(es, p, ev);
      && Valid(es, q) && |q.slots| == |p.slots| && |q.index| == |p.index|
      && (forall j :: i < j < |p.slots| ==> q.slots[j] == p.slots[j])
      && (forall f :: 0 <= f < |p.index| ==> q.index[f] <= p.index[f])
      && Registered(q, g) == if g == es.fd(ev) then Left(es, Registered(p, g), ev) else Registered(p, g)
  {
    DelRegisters(es, p, ev);
    DelFrame(es, p, ev, i);
    hide Valid, Watched, Del, Registered;
  }

  lemma VisitEffect(es: Events, p: Pop, s: Slot, i: nat, g: nat)
    requires Valid(es, p) && SlotOk(es, s) && Intact(s, p, i)
    ensures var q := Visit(es, p, s);
      && Valid(es, q) && |q.slots| == |p.slots| && |q.index| == |p.index|
      && (forall j :: i < j < |p.slots| ==> q.slots[j] == p.slots[j])
      && (forall f :: 0 <= f < |p.index| ==> q.index[f] <= p.index[f])
      && Registered(q, g) == if g == s.fd then After(es, s) else Registered(p, g)
  {
    var r, w := ReadyReader(s), ReadyWriter(s);
    var q := DelUnlessPersist(es, p, r);
    if r.Some? {
      ReadyWatched(es, p, s, r.value);
      if !es.persists(r.value) {
        DelReady(es, p, r.value, i, g);
        DelReady(es, p, r.value, i, s.fd);
      }
    }
    if w.Some? && w != r {
      ReadyWatched(es, p, s, w.value);
      SecondWatched(es, p, q, s, r, w.value);
      if !es.persists(w.value) {
        DelReady(es, q, w.value, i, g);
      }
    }
    hide Valid, Del, Registered, SlotOk, Watched;
  }

  /** Deleting the reader of a slot leaves a writer that is another event watched. */
  lemma SecondWatched(es: Events, p: Pop, q: Pop, s: Slot, r: Option<Id>, w: Id)
    requires Indexed(p) && Indexed(q) && SlotOk(es, s) && Registered(p, s.fd) == Waiters(s.reader, s.writer)
    requires r == ReadyReader(s) && ReadyWriter(s) == Some(w) && r != Some(w)
    requires Registered(q, s.fd) ==
      if r.Some? && !es.persists(r.value) then Left(es, Registered(p, s.fd), r.value) else Registered(p, s.fd)
    ensures Watched(es, q, w)
  {
    hide Indexed;
  }

  /** What a walk over slots that never change would deliver, in the order of the slots. */
  function AllDeliveries(es: Events, slots: seq<Slot>, i: nat, end: nat): seq<Delivery>
    requires i <= end <= |slots|
    decreases end - i
  {
    if i == end then [] else Deliveries(es, slots[i]) + AllDeliveries(es, slots, i + 1, end)
  }

  /** Entries i and up are intact. */
  ghost predicate Ahead(es: Events, start: Pop, p: Pop, i: nat)
    requires start.nfds <= |start.slots| && Indexed(p)
  {
    forall j :: i <= j < start.nfds ==> Intact(start.slots[j], p, j)
  }

  lemma VisitAhead(es: Events, start: Pop, p: Pop, i: nat)
    requires Valid(es, start) && Valid(es, p) && i < start.nfds && Ahead(es, start, p, i)
    ensures var q := Visit(es, p, start.slots[i]);
      && Valid(es, q) && |q.slots| == |p.slots| && Ahead(es, start, q, i + 1)
  {
    var s := start.slots[i];
    VisitEffect(es, p, s, i, 0);
    var q := Visit(es, p, s);
    forall j | i + 1 <= j < start.nfds
      ensures Intact(start.slots[j], q, j)
    {
      VisitEffect(es, p, s, i, start.slots[j].fd);
      assert Intact(start.slots[j], p, j) && SlotOk(es, start.slots[j]);
      OtherSlot(start, i, j);
      IndexPositive(es, start.slots[j], q);
    }
    hide Valid, Visit;
  }

  lemma OtherSlot(start: Pop, i: nat, j: nat)
    requires Indexed(start) && i < start.nfds && j < start.nfds && i != j
    ensures start.slots[i].fd != start.slots[j].fd
  {
  }

  lemma IndexPositive(es: Events, s: Slot, q: Pop)
    requires Indexed(q) && SlotOk(es, s) && Registered(q, s.fd) == Waiters(s.reader, s.writer)
    ensures s.fd < |q.index| && q.index[s.fd] > 0
  {
    hide SlotsIndexed, IndexSlotted;
  }

  /** Who waits for descriptor g once entries i and up have been visited. */
  ghost function Afterwards(es: Events, start: Pop, p: Pop, i: nat, g: nat): Waiters
    requires Indexed(start) && Indexed(p)
  {
    if g < |start.index| && start.index[g] > i then After(es, start.slots[start.index[g] - 1]) else Registered(p, g)
  }

  lemma VisitRegisters(es: Events, start: Pop, p: Pop, i: nat, g: nat)
    requires Valid(es, start) && Valid(es, p) && i < start.nfds && Ahead(es, start, p, i)
    ensures var q := Visit(es, p, start.slots[i]);
      Valid(es, q) && Afterwards(es, start, q, i + 1, g) == Afterwards(es, start, p, i, g)
  {
    var s := start.slots[i];
    assert SlotOk(es, s) && Intact(s, p, i) && start.index[s.fd] == i + 1;
    assert g < |start.index| && start.index[g] == i + 1 ==> g == s.fd;
    VisitEffect(es, p, s, i, g);
    hide Valid, Visit, Indexed, Registered, After, SlotOk, Ahead, Intact;
  }

  lemma AheadAt(es: Events, start: Pop, p: Pop, i: nat)
    requires Valid(es, start) && Indexed(p) && i < start.nfds && Ahead(es, start, p, i)
    ensures i < |p.slots| && start.nfds <= |start.slots| && p.slots[i] == start.slots[i]
  {
    hide Indexed;
    ValidIndexed(es, start);
    assert Intact(start.slots[i], p, i);
  }

  lemma AllVisited(es: Events, start: Pop, p: Pop, g: nat)
    requires Indexed(start) && Indexed(p)
    ensures Afterwards(es, start, p, start.nfds, g) == Registered(p, g)
  {
    hide Indexed, After, Registered;
    if g < |start.index| {
      IndexAt(start, g);
    }
  }

  lemma ValidIndexed(es: Events, p: Pop)
    requires Valid(es, p)
    ensures Indexed(p) && p.nfds <= |p.slots|
  {
    hide SlotsIndexed, IndexSlotted, SlotOk;
  }

  /** The walk delivers what an unchanging set would, although it swap-removes as it goes. */
  lemma {:induction false} WalkDelivers(es: Events, start: Pop, p: Pop, i: nat, g: nat)
    requires Valid(es, start) && Valid(es, p) && i <= start.nfds && Ahead(es, start, p, i) && start.nfds <= |p.slots|
    ensures var (q, log) := Walk(es, p, i, start.nfds);
      && log == AllDeliveries(es, start.slots, i, start.nfds) && Valid(es, q)
      && Registered(q, g) == Afterwards(es, start, p, i, g)
    decreases start.nfds - i
  {
    hide Valid, Indexed, Visit, Deliveries, Registered, Ahead, Intact, Afterwards;
    ValidIndexed(es, start);
    ValidIndexed(es, p);
    if i < start.nfds {
      AheadAt(es, start, p, i);
      VisitAhead(es, start, p, i);
      VisitRegisters(es, start, p, i, g);
      WalkDelivers(es, start, Visit(es, p, start.slots[i]), i + 1, g);
    } else {
      AllVisited(es, start, p, g);
    }
  }

  /** One poll_dispatch: every slot of the set is dealt with once, in order, with the reader and
      writer it had when poll returned, and the set that is left is the map without the ready
      events that do not persist. */
  lemma DispatchDelivers(es: Events, p: Pop, g: nat)
    requires Valid(es, p)
    ensures var (q, log) := Walk(es, p, 0, p.nfds);
      && log == AllDeliveries(es, p.slots, 0, p.nfds) && Valid(es, q)
      && Registered(q, g) ==
           if g < |p.index| && p.index[g] > 0 then After(es, p.slots[p.index[g] - 1]) else Waiters(None, None)
  {
    forall j | 0 <= j < p.nfds
      ensures Intact(p.slots[j], p, j)
    {
    }
    WalkDelivers(es, p, p, 0, g);
    hide Valid, Walk, Indexed;
  }

  // ---- exactly once --------------------------------------------------------------------------------

  function Ids(log: seq<Delivery>): seq<Id> {
    if log == [] then [] else [log[0].ev] + Ids(log[1..])
  }

  lemma {:induction false} IdsConcat(a: seq<Delivery>, b: seq<Delivery>)
    ensures Ids(a + b) == Ids(a) + Ids(b)
  {
    if a == [] {
      assert a + b == b;
    } else {
      assert (a + b)[1..] == a[1..] + b;
      IdsConcat(a[1..], b);
    }
  }

  lemma SlotIds(es: Events, s: Slot)
    requires SlotOk(es, s)
    ensures var l := Ids(Deliveries(es, s));
      && NoDup(l)
      && forall x :: x in l <==> (ReadyReader(s) == Some(x) || ReadyWriter(s) == Some(x))
  {
    var d := Deliveries(es, s);
    if |d| == 2 {
      assert d[1..] == [d[1]];
      IdsOne(d[1]);
      assert Ids(d) == [d[0].ev, d[1].ev];
      assert [d[0].ev, d[1].ev][1..] == [d[1].ev];
    } else if |d| == 1 {
      assert d == [d[0]];
      IdsOne(d[0]);
    }
  }

  lemma IdsOne(d: Delivery)
    ensures Ids([d]) == [d.ev]
  {
    assert [d][1..] == [];
  }

  lemma {:induction false} AllIds(es: Events, p: Pop, i: nat)
    requires Valid(es, p) && i <= p.nfds <= |p.slots|
    ensures var l := Ids(AllDeliveries(es, p.slots, i, p.nfds));
      && NoDup(l)
      && (forall x :: x in l ==> es.fd(x) < |p.index| && i < p.index[es.fd(x)])
    decreases p.nfds - i
  {
    hide Valid, Deliveries, NoDup, SlotOk, Ids, AllDeliveries;
    if i < p.nfds {
      var s := p.slots[i];
      AllIds(es, p, i + 1);
      SlotIs(es, p, i);
      SlotIds(es, s);
      SlotIdsFd(es, s);
      IdsStep(es, p.slots, i, p.nfds);
      forall x | x in Ids(Deliveries(es, s)) ensures x !in Ids(AllDeliveries(es, p.slots, i + 1, p.nfds)) {
        assert es.fd(x) == s.fd;
      }
      NoDupAppend(Ids(Deliveries(es, s)), Ids(AllDeliveries(es, p.slots, i + 1, p.nfds)));
    } else {
      NoIds(es, p.slots, i);
    }
  }

  lemma NoIds(es: Events, slots: seq<Slot>, i: nat)
    requires i <= |slots|
    ensures Ids(AllDeliveries(es, slots, i, i)) == [] && NoDup(Ids(AllDeliveries(es, slots, i, i)))
  {
  }

  lemma {:induction false} AllReady(es: Events, p: Pop, i: nat, j: nat, ev: Id)
    requires Valid(es, p) && i <= j < p.nfds <= |p.slots|
    requires ReadyReader(p.slots[j]) == Some(ev) || ReadyWriter(p.slots[j]) == Some(ev)
    ensures ev in Ids(AllDeliveries(es, p.slots, i, p.nfds))
    decreases j - i
  {
    hide Valid, Deliveries, NoDup, AllDeliveries, Ids, SlotOk, ReadyReader, ReadyWriter;
    SlotIs(es, p, i);
    IdsStep(es, p.slots, i, p.nfds);
    if i == j {
      SlotIds(es, p.slots[i]);
    } else {
      AllReady(es, p, i + 1, j, ev);
    }
  }

  lemma SlotIdsFd(es: Events, s: Slot)
    requires SlotOk(es, s)
    ensures forall x :: x in Ids(Deliveries(es, s)) ==> es.fd(x) == s.fd
  {
    SlotIds(es, s);
    hide Ids, Deliveries;
  }

  lemma IdsStep(es: Events, slots: seq<Slot>, i: nat, end: nat)
    requires i < end <= |slots|
    ensures Ids(AllDeliveries(es, slots, i, end)) ==
            Ids(Deliveries(es, slots[i])) + Ids(AllDeliveries(es, slots, i + 1, end))
  {
    IdsConcat(Deliveries(es, slots[i]), AllDeliveries(es, slots, i + 1, end));
  }

  lemma SlotIs(es: Events, p: Pop, i: nat)
    requires Valid(es, p) && i < p.nfds
    ensures SlotOk(es, p.slots[i]) && p.slots[i].fd < |p.index| && p.index[p.slots[i].fd] == i + 1
  {
  }

  /** Every event that was ready when poll returned is made active exactly once. */
  lemma ReadyOnce(es: Events, p: Pop, j: nat, ev: Id)
    requires Valid(es, p) && j < p.nfds
    requires ReadyReader(p.slots[j]) == Some(ev) || ReadyWriter(p.slots[j]) == Some(ev)
    ensures multiset(Ids(Walk(es, p, 0, p.nfds).1))[ev] == 1
  {
    DispatchDelivers(es, p, 0);
    AllIds(es, p, 0);
    AllReady(es, p, 0, j, ev);
    NoDupCount(Ids(AllDeliveries(es, p.slots, 0, p.nfds)), ev);
    hide Valid, Walk, NoDup, AllDeliveries;
  }
}
