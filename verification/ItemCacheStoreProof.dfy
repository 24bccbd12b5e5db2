/** do_store_item keeps the invariant, refines an abstract key-to-entry store, and leaves
    every reference count as it found it. */
module ItemCacheStoreProof {
  import opened Seqs
  import opened ItemCache
  import opened ItemCacheSteps
  import opened ItemCacheOps
  import opened ItemCacheView
  import opened ItemCacheStore
  import Slabs

  // ---- the abstract store ---------------------------------------------------------------

  predicate LockedAt(e: Entry, now: nat) {
    e.deleted && now < e.exptime
  }

  /** An entry that a lookup throws out: older than flush_all, or past its expiry. */
  predicate StaleAt(e: Entry, now: nat, oldestLive: nat) {
    !LockedAt(e, now)
    && ((oldestLive != 0 && oldestLive <= now && e.time <= oldestLive) || (e.exptime != 0 && e.exptime <= now))
  }

  function Pruned(view: map<Key, Entry>, key: Key, now: nat, oldestLive: nat): map<Key, Entry> {
    if key in view && StaleAt(view[key], now, oldestLive) then view - {key} else view
  }

  /** May this command store under `key`? */
  predicate Admits(comm: Command, view: map<Key, Entry>, key: Key, now: nat, casId: nat, room: bool) {
    match comm
    case Set => true
    case Add => key !in view
    case Replace => key in view && !LockedAt(view[key], now)
    case Append => key in view && !LockedAt(view[key], now) && room
    case Prepend => key in view && !LockedAt(view[key], now) && room
    case Cas => key in view && view[key].casId == casId
  }

  // ---- what the pieces do ------------------------------------------------------------------

  lemma GetEffect(s: Cache, key: Key)
    requires Valid(s)
    ensures var g := Get(s, key); var t := g.cache;
      && Valid(t) && Onward(s, t) && SameCas(s, t)
      && View(t) == Pruned(View(s), key, s.now, s.oldestLive)
      && (g.found.Some? <==> key in View(t) && !LockedAt(View(t)[key], s.now))
      && (g.locked <==> key in View(t) && LockedAt(View(t)[key], s.now))
      && (g.found.Some? ==> Holding(t, key, g.found.value) && t.held == s.held + multiset{g.found.value})
      && (g.found.None? ==> t.held == s.held)
      && (g.found.Some? ==> !Flushed(t, t.items[g.found.value]))
  {
    hide Shape, TableOk, LruOk, CountsOk, RefsOk, DeletedOk, SpareOk, TimeOk, CasOk, LiveOk;
    hide History, Get, View, Pruned, Holding;
    GetKeeps(s, key);
    GetView(s, key);
    GetChunks(s, key);
  }

  lemma GetView(s: Cache, key: Key)
    requires Shape(s) && TableOk(s) && CasOk(s)
    ensures var g := Get(s, key); var t := g.cache;
      && View(t) == Pruned(View(s), key, s.now, s.oldestLive) && Onward(s, t)
      && (g.found.Some? <==> key in View(t) && !LockedAt(View(t)[key], s.now))
      && (g.locked <==> key in View(t) && LockedAt(View(t)[key], s.now))
  {
    hide History, TableOk, CasOk, Unlink, Take, View, Shape;
    ViewAt(s, key);
    OnwardSelf(s);
    if key in s.table {
      TakeView(s, s.table[key]);
      UnlinkView(s, s.table[key]);
    }
  }

  lemma ViewAt(s: Cache, key: Key)
    requires TableOk(s)
    ensures key in View(s) <==> key in s.table
    ensures key in s.table ==>
      var a := s.table[key];
      a in s.items && s.items[a].linked && s.items[a].key == key && View(s)[key] == EntryOf(s.items[a])
  {
  }

  lemma GetChunks(s: Cache, key: Key)
    requires Shape(s) && TableOk(s)
    ensures var g := Get(s, key); var t := g.cache;
      && SameCas(s, t)
      && (g.found.Some? ==> Holding(t, key, g.found.value) && t.held == s.held + multiset{g.found.value})
      && (g.found.None? ==> t.held == s.held)
      && (g.found.Some? ==> !Flushed(t, t.items[g.found.value]))
  {
    if key in s.table {
      var a := s.table[key];
      assert a in s.items && s.items[a].linked && s.items[a].key == key;
      hide TableOk;
    }
  }

  /** A lookup leaves chunks that are not linked alone. */
  lemma GetOther(s: Cache, key: Key, it: Addr)
    requires Shape(s) && TableOk(s) && it in s.items && !s.items[it].linked
    ensures var t := Get(s, key).cache; it in t.items && t.items[it] == s.items[it]
  {
    if key in s.table {
      assert s.table[key] != it;
      hide TableOk;
    }
  }

  /** The item of `key` is a, and somebody holds a reference on it. */
  ghost predicate Holding(s: Cache, key: Key, a: Addr) {
    a in s.items && s.items[a].linked && s.items[a].key == key && s.held[a] > 0 && s.items[a].refcount > 0
    && key in s.table && s.table[key] == a && key in View(s) && View(s)[key] == EntryOf(s.items[a])
  }

  /** Nothing but item fields, the table, the lists and the reference counts differs. */
  ghost predicate SameCas(s: Cache, t: Cache) {
    t.casCounter == s.casCounter && t.versions == s.versions
  }

  lemma DropEffect(s: Cache, a: Addr, b: Addr)
    requires Valid(s) && a in s.items && s.held[a] > 0
    ensures var t := Remove(s, a);
      && Valid(t) && View(t) == View(s) && Onward(s, t) && SameCas(s, t) && t.held == s.held - multiset{a}
      && (b != a && b in s.items ==> b in t.items && t.items[b] == s.items[b])
  {
    hide *;
    ValidParts(s);
    RemoveKeeps(s, a);
    RemoveView(s, a);
    RemoveOthers(s, a, b);
  }

  lemma RemoveOthers(s: Cache, a: Addr, b: Addr)
    requires a in s.items
    ensures var t := Remove(s, a);
      && SameCas(s, t) && t.held == s.held - multiset{a}
      && (b != a && b in s.items ==> b in t.items && t.items[b] == s.items[b])
  {
  }

  lemma LinkEffect(s: Cache, it: Addr, b: Addr)
    requires Valid(s) && it in s.items && !s.items[it].linked && s.items[it].key !in View(s)
    ensures var t := Link(s, it); var i := s.items[it];
      && Valid(t) && Onward(s, t) && t.held == s.held
      && View(t) == View(s)[i.key := Entry(i.flags, i.data, i.exptime, s.now, i.deleted, s.casCounter + 1)]
      && it in t.items && t.items[it].refcount == i.refcount && t.items[it].linked
      && (b != it && b in s.items ==> b in t.items && t.items[b] == s.items[b])
  {
    hide *;
    ValidParts(s);
    ViewAt(s, s.items[it].key);
    LinkKeeps(s, it);
    LinkView(s, it);
    LinkOthers(s, it, b);
  }

  lemma ValidParts(s: Cache)
    requires Valid(s)
    ensures Core(s) && LiveOk(s) && Shape(s) && TableOk(s) && CasOk(s)
  {
    hide Shape, TableOk, LruOk, CountsOk, RefsOk, DeletedOk, SpareOk, TimeOk, CasOk, LiveOk;
  }

  lemma LinkOthers(s: Cache, it: Addr, b: Addr)
    requires Shape(s) && it in s.items
    ensures var t := Link(s, it);
      && t.held == s.held && it in t.items && t.items[it].refcount == s.items[it].refcount && t.items[it].linked
      && (b != it && b in s.items ==> b in t.items && t.items[b] == s.items[b])
  {
    hide Total;
  }

  /** do_item_unlink of an item on which somebody holds a reference. */
  lemma UnlinkEffect(s: Cache, key: Key, was: Addr, b: Addr)
    requires Valid(s) && Holding(s, key, was)
    ensures var t := Unlink(s, was);
      && Valid(t) && View(t) == View(s) - {key} && Onward(s, t) && SameCas(s, t) && t.held == s.held
      && was in t.items && t.items[was] == s.items[was].(linked := false)
      && (b != was && b in s.items ==> b in t.items && t.items[b] == s.items[b])
  {
    hide *;
    ValidParts(s);
    HoldingParts(s, key, was);
    UnlinkKeeps(s, was);
    UnlinkView(s, was);
    UnlinkOthers(s, was, b);
    UnlinkHeld(s, was);
  }

  lemma HoldingParts(s: Cache, key: Key, a: Addr)
    requires Holding(s, key, a)
    ensures a in s.items && s.items[a].linked && s.items[a].key == key && s.items[a].refcount > 0
  {
  }

  lemma UnlinkHeld(s: Cache, a: Addr)
    requires Shape(s) && a in s.items && s.items[a].linked && s.items[a].refcount > 0
    ensures a in Unlink(s, a).items && Unlink(s, a).items[a] == s.items[a].(linked := false)
  {
    hide Total;
  }

  lemma PutOverEffect(s: Cache, key: Key, was: Addr, it: Addr)
    requires Valid(s) && Holding(s, key, was)
    requires it in s.items && !s.items[it].linked && s.items[it].key == key
    ensures var t := PutOver(s, was, it); var i := s.items[it];
      && Valid(t) && Onward(s, t) && t.held == s.held - multiset{was}
      && View(t) == View(s)[key := Entry(i.flags, i.data, i.exptime, s.now, i.deleted, s.casCounter + 1)]
      && it in t.items && t.items[it].refcount == i.refcount && t.items[it].linked
  {
    hide History, Valid, View, Unlink, Link, Remove;
    UnlinkEffect(s, key, was, it);
    var t := Unlink(s, was);
    LinkEffect(t, it, was);
    DropEffect(Link(t, it), was, it);
    OnwardTrans(s, t, Link(t, it));
    OnwardTrans(s, Link(t, it), PutOver(s, was, it));
    assert View(s)[key := View(Link(t, it))[key]] == (View(s) - {key})[key := View(Link(t, it))[key]];
  }

  // ---- allocation with eviction ---------------------------------------------------------------

  /** Keys whose items nobody holds: the only ones an eviction may take. */
  ghost predicate Idle(s: Cache, keys: set<Key>) {
    |keys| <= 1 && forall k :: k in keys ==>
      k in s.table && s.table[k] in s.items && s.items[s.table[k]].refcount == 0
  }

  lemma EvictedEffect(s: Cache, id: nat, b: Addr) returns (lost: set<Key>)
    requires Valid(s)
    ensures Idle(s, lost)
    ensures var t := Evicted(s, id);
      && Valid(t) && View(t) == View(s) - lost && Onward(s, t) && SameCas(s, t) && t.held == s.held
      && (b in s.items && s.items[b].refcount > 0 ==> b in t.items && t.items[b] == s.items[b])
  {
    hide Shape, TableOk, LruOk, CountsOk, RefsOk, DeletedOk, SpareOk, TimeOk, CasOk, LiveOk;
    hide History, View, Unlink, Idle;
    lost := Unharmed(s);
    OnwardSelf(s);
    if id < |s.lru| {
      var victim := EvictTarget(s.items, s.lru[id], EVICT_TRIES);
      if victim.Some? {
        VictimIdle(s, id, victim.value);
        lost := {s.items[victim.value].key};
        UnlinkKeeps(s, victim.value);
        UnlinkView(s, victim.value);
        UnlinkOthers(s, victim.value, b);
      }
    }
  }

  lemma VictimIdle(s: Cache, id: nat, a: Addr)
    requires Shape(s) && TableOk(s) && LruOk(s) && id < |s.lru|
    requires a in s.lru[id] && a in s.items && s.items[a].refcount == 0
    ensures s.items[a].linked && Idle(s, {s.items[a].key})
  {
  }

  lemma UnlinkOthers(s: Cache, a: Addr, b: Addr)
    requires a in s.items
    ensures var t := Unlink(s, a);
      && SameCas(s, t) && t.held == s.held
      && (b != a && b in s.items ==> b in t.items && t.items[b] == s.items[b])
  {
  }

  lemma PlaceEffect(s: Cache, a: Addr, key: Key, flags: int, exptime: nat, data: string, id: nat, b: Addr)
    requires Valid(s) && a !in s.items && id < LARGEST_ID && |data| >= 2
    ensures var t := Place(s, a, key, flags, exptime, data, id);
      && Valid(t) && View(t) == View(s) && Onward(s, t) && SameCas(s, t) && t.held == s.held + multiset{a}
      && a in t.items && t.items[a] == Item(key, flags, data, 0, exptime, 1, false, false, id, 0, 0)
      && t.held[a] > 0
      && (b in s.items ==> b != a && b in t.items && t.items[b] == s.items[b])
  {
    hide History, TableOk, LruOk, CountsOk, RefsOk, DeletedOk, SpareOk, TimeOk, CasOk, LiveOk, Shape, View;
    PlaceKeeps(s, a, key, flags, exptime, data, id);
    PlaceView(s, a, key, flags, exptime, data, id);
    PlaceHistory(s, a, key, flags, exptime, data, id);
  }

  lemma PlaceHistory(s: Cache, a: Addr, key: Key, flags: int, exptime: nat, data: string, id: nat)
    requires CasOk(s) && a !in s.items
    ensures History(s, Place(s, a, key, flags, exptime, data, id))
  {
  }

  lemma PlaceView(s: Cache, a: Addr, key: Key, flags: int, exptime: nat, data: string, id: nat)
    requires TableOk(s) && a !in s.items
    ensures View(Place(s, a, key, flags, exptime, data, id)) == View(s)
  {
  }

  /** A chunk just allocated: filled in, held by the caller, not linked. */
  ghost predicate NewChunk(t: Cache, n: Addr, key: Key, flags: int, exptime: nat, data: string) {
    t.held[n] > 0 && n in t.items && t.items[n].key == key && t.items[n].flags == flags
    && t.items[n].data == data && t.items[n].exptime == exptime
    && !t.items[n].linked && !t.items[n].deleted && t.items[n].refcount == 1
  }

  lemma ClassBound(s: Cache, key: Key, flags: int, data: string)
    requires Valid(s)
    ensures Slabs.ClassId(s.classes, Footprint(key, flags, |data|)) < LARGEST_ID == |s.lru|
  {
  }

  lemma AllocEffect(s: Cache, key: Key, flags: int, exptime: nat, data: string, g: Grants, b: Addr)
    returns (lost: set<Key>)
    requires Valid(s) && |data| >= 2
    ensures Idle(s, lost)
    ensures var (t, room) := Alloc(s, key, flags, exptime, data, g);
      && Valid(t) && View(t) == View(s) - lost && Onward(s, t) && SameCas(s, t)
      && (b in s.items && s.items[b].refcount > 0 ==> b in t.items && t.items[b] == s.items[b])
      && (room.None? ==> t.held == s.held)
      && (room.Some? ==>
           t.held == s.held + multiset{room.value} && NewChunk(t, room.value, key, flags, exptime, data)
           && (b in s.items && s.items[b].refcount > 0 ==> room.value != b))
  {
    hide History, Shape, Core, LiveOk, View, Place, Evicted, Idle, Footprint, Slabs.ClassId, TableOk, CasOk;
    lost := Unharmed(s);
    ClassBound(s, key, flags, data);
    CoreParts(s);
    OnwardSelf(s);
    var id := Slabs.ClassId(s.classes, Footprint(key, flags, |data|));
    if id != 0 {
      if Usable(s.items, g.first) {
        PlaceEffect(s, g.first.value, key, flags, exptime, data, id, b);
      } else if s.evictToFree && s.lru[id] != [] {
        lost := EvictedEffect(s, id, b);
        if Usable(Evicted(s, id).items, g.second) {
          PlaceEffect(Evicted(s, id), g.second.value, key, flags, exptime, data, id, b);
          OnwardTrans(s, Evicted(s, id), Place(Evicted(s, id), g.second.value, key, flags, exptime, data, id));
        }
      }
    }
  }

  lemma Unharmed(s: Cache) returns (lost: set<Key>)
    ensures lost == {} && Idle(s, lost) && View(s) == View(s) - lost
  {
    lost := {};
  }

  // ---- the commands ----------------------------------------------------------------------------

  /** Add on a present key: the item moves to the head of its list, nothing else. */
  lemma TouchEffect(s: Cache, key: Key, a: Addr)
    requires Valid(s) && Holding(s, key, a) && !Flushed(s, s.items[a])
    ensures var t := Remove(Update(s, a), a);
      && Valid(t) && Onward(s, t) && SameCas(s, t) && t.held == s.held - multiset{a}
      && View(t) == Touched(View(s), key, s.now)
  {
    hide History, Core, LiveOk, View, Update, Remove, Shape, TableOk, CasOk;
    CoreParts(s);
    TimeBound(s, a);
    UpdateKeeps(s, a);
    UpdateView(s, a);
    UpdateHolds(s, a);
    DropEffect(Update(s, a), a, a);
    OnwardTrans(s, Update(s, a), Remove(Update(s, a), a));
  }

  lemma CoreParts(s: Cache)
    requires Core(s)
    ensures Shape(s) && TableOk(s) && CasOk(s)
  {
    hide Shape, TableOk, LruOk, CountsOk, RefsOk, DeletedOk, SpareOk, TimeOk, CasOk;
  }

  lemma TimeBound(s: Cache, a: Addr)
    requires Valid(s) && a in s.items && s.items[a].linked
    ensures s.items[a].time <= s.now
  {
    hide TableOk, LruOk, CountsOk, RefsOk, DeletedOk, SpareOk, CasOk, LiveOk;
  }

  lemma UpdateHolds(s: Cache, a: Addr)
    requires a in s.items
    ensures var t := Update(s, a); SameCas(s, t) && a in t.items && t.held == s.held
  {
  }

  /** The view after an item's time is refreshed, if do_item_update finds that due. */
  function Touched(view: map<Key, Entry>, key: Key, now: nat): map<Key, Entry> {
    if key in view && UpdateDue(view[key].time, now) then view[key := view[key].(time := now)] else view
  }

  lemma LockedEffect(s: Cache, key: Key, it: Addr)
    requires Valid(s) && it in s.items && !s.items[it].linked
    ensures var g := GetNoCheck(s, key); var t := g.cache;
      && Valid(t) && View(t) == View(s) && Onward(s, t) && SameCas(s, t)
      && it in t.items && t.items[it] == s.items[it]
      && (g.found.Some? <==> key in View(s))
      && (g.found.Some? ==> Holding(t, key, g.found.value) && t.held == s.held + multiset{g.found.value})
      && (g.found.None? ==> t == s)
  {
    hide History, LruOk, CountsOk, RefsOk, DeletedOk, SpareOk, TimeOk, CasOk, LiveOk, TableOk, Shape;
    ViewAt(s, key);
    OnwardSelf(s);
    if key in s.table {
      TakeKeeps(s, s.table[key]);
      TakeView(s, s.table[key]);
    }
  }

  lemma HoldingFrom(t: Cache, key: Key, a: Addr)
    requires TableOk(t) && a in t.items && t.items[a].linked && t.items[a].key == key
    requires t.held[a] > 0 && t.items[a].refcount > 0
    ensures Holding(t, key, a)
  {
  }

  lemma DataLength(s: Cache, a: Addr)
    requires Valid(s) && a in s.items
    ensures |s.items[a].data| >= 2
  {
    hide History, TableOk, LruOk, CountsOk, RefsOk, DeletedOk, SpareOk, TimeOk, CasOk, LiveOk;
  }

  lemma JoinedLength(comm: Command, was: string, more: string)
    requires |was| >= 2 && |more| >= 2
    ensures |Joined(comm, was, more)| >= 2
  {
  }

  lemma JoinAlloc(s: Cache, key: Key, was: Addr, data: string, g: Grants)
    returns (lost: set<Key>)
    requires Valid(s) && Holding(s, key, was) && |data| >= 2
    ensures Idle(s, lost) && key !in lost
    ensures var o := s.items[was]; var (t, n) := Alloc(s, key, o.flags, o.exptime, data, g);
      && Valid(t) && View(t) == View(s) - lost && Onward(s, t) && SameCas(s, t)
      && Holding(t, key, was)
      && (n.None? ==> t.held == s.held)
      && (n.Some? ==>
           t.held == s.held + multiset{n.value} && NewChunk(t, n.value, key, o.flags, o.exptime, data)
           && n.value != was)
  {
    var o := s.items[was];
    hide History, Core, LiveOk, View, Alloc, NewChunk;
    lost := AllocEffect(s, key, o.flags, o.exptime, data, g, was);
    var (t, n) := Alloc(s, key, o.flags, o.exptime, data, g);
    CoreParts(t);
    hide History, Shape, TableOk;
    HoldingFrom(t, key, was);
  }

  lemma PutJoined(t: Cache, key: Key, was: Addr, n: Addr, flags: int, exptime: nat, data: string,
                  view: map<Key, Entry>, e: Entry)
    requires Valid(t) && Holding(t, key, was) && NewChunk(t, n, key, flags, exptime, data) && n != was
    requires View(t) == view && e == Entry(flags, data, exptime, t.now, false, t.casCounter + 1)
    ensures var u := Remove(PutOver(t, was, n), n);
      && Valid(u) && Onward(t, u) && u.held == t.held - multiset{was} - multiset{n}
      && View(u) == view[key := e]
  {
    hide History, Core, LiveOk, View, PutOver, Remove;
    PutOverEffect(t, key, was, n);
    DropEffect(PutOver(t, was, n), n, n);
    OnwardTrans(t, PutOver(t, was, n), Remove(PutOver(t, was, n), n));
  }

  lemma HeldBalance(held: multiset<Addr>, was: Addr, n: Addr)
    requires held[was] > 0 && n != was
    ensures held + multiset{n} - multiset{was} - multiset{n} == held - multiset{was}
  {
  }

  /** append and prepend: allocate, store over the old item, give back both references. */
  lemma JoinedEffect(s: Cache, key: Key, was: Addr, it: Addr, comm: Command, g: Grants)
    returns (lost: set<Key>, room: bool)
    requires Valid(s) && Holding(s, key, was) && it in s.items && s.items[it].key == key
    ensures Idle(s, lost) && key !in lost
    ensures var (t, out) := StoreJoined(s, was, it, comm, g); var o := s.items[was];
      && Valid(t) && Onward(s, t) && t.held == s.held - multiset{was}
      && out == (if room then Stored else NotStored)
      && (!room ==> View(t) == View(s) - lost)
      && (room ==>
           View(t) == (View(s) - lost)[key := Entry(o.flags, Joined(comm, o.data, s.items[it].data), o.exptime,
                                                    s.now, false, s.casCounter + 1)])
  {
    hide Valid, Core, LiveOk, History, View, Alloc, PutOver, Remove, Idle, NewChunk, Joined, EntryOf;
    var o := s.items[was];
    var data := Joined(comm, o.data, s.items[it].data);
    DataLength(s, was);
    DataLength(s, it);
    JoinedLength(comm, o.data, s.items[it].data);
    lost := JoinAlloc(s, key, was, data, g);
    var (t, n) := Alloc(s, key, o.flags, o.exptime, data, g);
    room := n.Some?;
    if room {
      var e := Entry(o.flags, data, o.exptime, s.now, false, s.casCounter + 1);
      PutJoined(t, key, was, n.value, o.flags, o.exptime, data, View(s) - lost, e);
      HeldBalance(s.held, was, n.value);
      OnwardTrans(s, t, Remove(PutOver(t, was, n.value), n.value));
    } else {
      DropEffect(t, was, was);
      OnwardTrans(s, t, Remove(t, was));
    }
  }

  // ---- do_store_item as a whole -------------------------------------------------------------------

  /** What a successful command puts under the key. */
  function NewEntry(comm: Command, view: map<Key, Entry>, it: Item, now: nat, id: nat): Entry {
    if (comm == Append || comm == Prepend) && it.key in view then
      var was := view[it.key];
      Entry(was.flags, Joined(comm, was.data, it.data), was.exptime, now, false, id)
    else Entry(it.flags, it.data, it.exptime, now, false, id)
  }

  function Minus(view: map<Key, Entry>, lost: set<Key>): map<Key, Entry> {
    if lost == {} then view else view - lost
  }

  /** The abstract store: outcome and entries after a command, given what eviction took and
      whether there was room for a joined value. */
  ghost predicate Refines(view: map<Key, Entry>, it: Item, comm: Command, now: nat, id: nat,
                          lost: set<Key>, room: bool, out: Outcome, after: map<Key, Entry>)
  {
    var admitted := Admits(comm, view, it.key, now, it.casId, room);
    && (out == Stored <==> admitted)
    && (comm == Cas ==>
          (out == NotFound <==> it.key !in view) && (out == Exists <==> it.key in view && !admitted))
    && (comm != Cas && !admitted ==> out == NotStored)
    && (lost != {} ==> (comm == Append || comm == Prepend))
    && it.key !in lost
    && (admitted ==> after == Minus(view, lost)[it.key := NewEntry(comm, view, it, now, id)])
    && (!admitted ==>
          after == (if comm == Add && !LockedAt(view[it.key], now)
                    then Touched(view, it.key, now) else Minus(view, lost)))
  }

  /** The state a command works on once its lookup is done. */
  ghost predicate Ready(s: Cache, t: Cache, it: Addr) {
    && Valid(t) && Onward(s, t) && SameCas(s, t)
    && it in s.items && it in t.items && t.items[it] == s.items[it]
    && !s.items[it].linked && !s.items[it].deleted
  }

  /** Store over the item found: set, replace, and a cas that validates. */
  lemma PutRefines(s: Cache, h: Cache, it: Addr, a: Addr, comm: Command, view: map<Key, Entry>, held: multiset<Addr>)
    requires Ready(s, h, it) && Holding(h, s.items[it].key, a)
    requires view == View(h) && h.held == held + multiset{a}
    requires comm != Append && comm != Prepend && Admits(comm, view, s.items[it].key, s.now, s.items[it].casId, true)
    ensures var u := PutOver(h, a, it);
      && Valid(u) && Onward(s, u) && u.held == held
      && Refines(view, s.items[it], comm, s.now, s.casCounter + 1, {}, true, Stored, View(u))
  {
    hide History, Core, LiveOk, View, PutOver, Holding;
    PutOverEffect(h, s.items[it].key, a, it);
    OnwardTrans(s, h, PutOver(h, a, it));
  }

  /** A cas that finds another version. */
  lemma ExistsRefines(s: Cache, h: Cache, it: Addr, a: Addr, view: map<Key, Entry>, held: multiset<Addr>)
    requires Ready(s, h, it) && Holding(h, s.items[it].key, a)
    requires view == View(h) && h.held == held + multiset{a} && s.items[it].casId != h.items[a].casId
    ensures var u := Remove(h, a);
      && Valid(u) && Onward(s, u) && u.held == held
      && Refines(view, s.items[it], Cas, s.now, s.casCounter + 1, {}, true, Exists, View(u))
  {
    hide History, Core, LiveOk, View, Remove;
    DropEffect(h, a, it);
    OnwardTrans(s, h, Remove(h, a));
  }

  /** A command that finds nothing it may work on. */
  lemma RefusedRefines(s: Cache, t: Cache, it: Addr, comm: Command, room: bool)
    requires Ready(s, t, it)
    requires !Admits(comm, View(t), s.items[it].key, s.now, s.items[it].casId, room)
    requires comm == Cas ==> s.items[it].key !in View(t)
    requires comm == Add ==> s.items[it].key in View(t) && LockedAt(View(t)[s.items[it].key], s.now)
    ensures Refines(View(t), s.items[it], comm, s.now, s.casCounter + 1, {}, room,
                    if comm == Cas then NotFound else NotStored, View(t))
  {
    hide History, Core, LiveOk, View;
  }

  lemma HoldingEntry(s: Cache, key: Key, a: Addr)
    requires Holding(s, key, a)
    ensures a in s.items && s.held[a] > 0 && key in View(s) && View(s)[key] == EntryOf(s.items[a])
  {
  }

  /** The lookup of a command found t, `found` and `locked`. */
  ghost predicate LookedUp(s: Cache, t: Cache, it: Addr, locked: bool, found: Option<Addr>) {
    && Ready(s, t, it)
    && var key := s.items[it].key;
    && Get(s, key) == Lookup(t, found, locked)
    && (locked <==> key in View(t) && LockedAt(View(t)[key], s.now))
    && (found.Some? <==> key in View(t) && !LockedAt(View(t)[key], s.now))
    && (found.Some? ==> Holding(t, key, found.value) && t.held == s.held + multiset{found.value})
    && (found.None? ==> t.held == s.held)
    && (found.Some? ==> !Flushed(t, t.items[found.value]))
  }

  lemma StoreCas(s: Cache, t: Cache, it: Addr, locked: bool, found: Option<Addr>, g: Grants)
    requires LookedUp(s, t, it, locked, found)
    ensures var (u, out) := Store(s, it, Cas, g);
      && Valid(u) && Onward(s, u) && u.held == s.held
      && Refines(View(t), s.items[it], Cas, s.now, s.casCounter + 1, {}, true, out, View(u))
  {
    hide History, Valid, View, Get, GetNoCheck, PutOver, Remove, Holding, Refines, StoreJoined, Link, Update;
    var key := s.items[it].key;
    if locked {
      LockedEffect(t, key, it);
      OnwardTrans(s, t, GetNoCheck(t, key).cache);
    }
    var h := if locked then GetNoCheck(t, key) else Lookup(t, found, false);
    if h.found.Some? {
      var a := h.found.value;
      HoldingEntry(h.cache, key, a);
      if s.items[it].casId == h.cache.items[a].casId {
        PutRefines(s, h.cache, it, a, Cas, View(t), s.held);
      } else {
        ExistsRefines(s, h.cache, it, a, View(t), s.held);
      }
    } else {
      RefusedRefines(s, t, it, Cas, true);
    }
  }

  /** Storing under a key that has no item. */
  lemma NewRefines(s: Cache, t: Cache, it: Addr, comm: Command)
    requires Ready(s, t, it) && s.items[it].key !in View(t) && (comm == Set || comm == Add)
    ensures var u := Link(t, it);
      && Valid(u) && Onward(s, u) && u.held == t.held
      && Refines(View(t), s.items[it], comm, s.now, s.casCounter + 1, {}, true, Stored, View(u))
  {
    hide History, Core, LiveOk, View, Link;
    LinkEffect(t, it, it);
    OnwardTrans(s, t, Link(t, it));
  }

  lemma AddRefines(s: Cache, t: Cache, it: Addr, a: Addr, view: map<Key, Entry>, held: multiset<Addr>)
    requires Ready(s, t, it) && Holding(t, s.items[it].key, a)
    requires view == View(t) && t.held == held + multiset{a} && !LockedAt(view[s.items[it].key], s.now)
    requires !Flushed(t, t.items[a])
    ensures var u := Remove(Update(t, a), a);
      && Valid(u) && Onward(s, u) && u.held == held
      && Refines(view, s.items[it], Add, s.now, s.casCounter + 1, {}, true, NotStored, View(u))
  {
    hide History, Core, LiveOk, View, Remove, Update, UpdateDue;
    TouchEffect(t, s.items[it].key, a);
    OnwardTrans(s, t, Remove(Update(t, a), a));
  }

  /** append and prepend to an item that is there. */
  lemma JoinRefines(s: Cache, t: Cache, it: Addr, a: Addr, comm: Command, g: Grants, view: map<Key, Entry>,
                    held: multiset<Addr>)
    returns (lost: set<Key>, room: bool)
    requires Ready(s, t, it) && Holding(t, s.items[it].key, a) && (comm == Append || comm == Prepend)
    requires view == View(t) && t.held == held + multiset{a} && !LockedAt(view[s.items[it].key], s.now)
    ensures Idle(t, lost)
    ensures var (u, out) := StoreJoined(t, a, it, comm, g);
      && Valid(u) && Onward(s, u) && u.held == held
      && Refines(view, s.items[it], comm, s.now, s.casCounter + 1, lost, room, out, View(u))
  {
    hide History, Core, LiveOk, View, StoreJoined, Idle, Joined;
    lost, room := JoinedEffect(t, s.items[it].key, a, it, comm, g);
    HoldingEntry(t, s.items[it].key, a);
    MinusIs(view, lost);
    OnwardTrans(s, t, StoreJoined(t, a, it, comm, g).0);
  }

  lemma MinusIs(view: map<Key, Entry>, lost: set<Key>)
    ensures Minus(view, lost) == view - lost
  {
  }

  lemma StorePlain(s: Cache, t: Cache, it: Addr, comm: Command, locked: bool, found: Option<Addr>, g: Grants)
    requires LookedUp(s, t, it, locked, found) && (comm == Set || comm == Add || comm == Replace)
    ensures var (u, out) := Store(s, it, comm, g);
      && Valid(u) && Onward(s, u) && u.held == s.held
      && Refines(View(t), s.items[it], comm, s.now, s.casCounter + 1, {}, true, out, View(u))
  {
    hide History, Valid, View, Get, GetNoCheck, PutOver, Remove, Holding, Refines, StoreJoined, Link, Update;
    var key := s.items[it].key;
    if found.Some? {
      HoldingEntry(t, key, found.value);
      if comm == Add {
        AddRefines(s, t, it, found.value, View(t), s.held);
      } else {
        PutRefines(s, t, it, found.value, comm, View(t), s.held);
      }
    } else if locked {
      if comm == Set {
        LockedEffect(t, key, it);
        var h := GetNoCheck(t, key);
        OnwardTrans(s, t, h.cache);
        HoldingEntry(h.cache, key, h.found.value);
        PutRefines(s, h.cache, it, h.found.value, Set, View(t), s.held);
      } else {
        RefusedRefines(s, t, it, comm, true);
      }
    } else if comm == Replace {
      RefusedRefines(s, t, it, comm, true);
    } else {
      NewRefines(s, t, it, comm);
    }
  }

  lemma StoreAppend(s: Cache, t: Cache, it: Addr, comm: Command, locked: bool, found: Option<Addr>, g: Grants)
    returns (lost: set<Key>, room: bool)
    requires LookedUp(s, t, it, locked, found) && (comm == Append || comm == Prepend)
    ensures Idle(t, lost)
    ensures var (u, out) := Store(s, it, comm, g);
      && Valid(u) && Onward(s, u) && u.held == s.held
      && Refines(View(t), s.items[it], comm, s.now, s.casCounter + 1, lost, room, out, View(u))
  {
    hide History, Valid, View, Get, GetNoCheck, PutOver, Remove, Holding, Refines, StoreJoined, Link, Update, Idle;
    lost := Unharmed(t);
    room := false;
    if found.Some? {
      HoldingEntry(t, s.items[it].key, found.value);
      lost, room := JoinRefines(s, t, it, found.value, comm, g, View(t), s.held);
    } else {
      RefusedRefines(s, t, it, comm, false);
    }
  }

  /** What the lookup at the start of do_store_item leaves. */
  lemma LookupDone(s: Cache, it: Addr)
    requires Valid(s) && it in s.items && !s.items[it].linked && !s.items[it].deleted
    ensures var key := s.items[it].key; var got := Get(s, key);
      && LookedUp(s, got.cache, it, got.locked, got.found)
      && View(got.cache) == Pruned(View(s), key, s.now, s.oldestLive)
  {
    hide History, Valid, View, Get, Holding, Pruned;
    var key := s.items[it].key;
    GetEffect(s, key);
    ValidParts(s);
    GetOther(s, key, it);
  }

  /** do_store_item refines the abstract store, on the entries left by the lookup, with an
      eviction of at most one item that nobody holds; it gives back every reference it takes. */
  lemma StoreRefines(s: Cache, it: Addr, comm: Command, g: Grants)
    returns (lost: set<Key>, room: bool)
    requires Valid(s) && it in s.items && !s.items[it].linked && !s.items[it].deleted
    ensures Idle(Get(s, s.items[it].key).cache, lost)
    ensures var (u, out) := Store(s, it, comm, g); var i := s.items[it];
      && Valid(u) && Onward(s, u) && u.held == s.held
      && Refines(Pruned(View(s), i.key, s.now, s.oldestLive), i, comm, s.now, s.casCounter + 1, lost, room,
                 out, View(u))
  {
    hide *;
    var got := Get(s, s.items[it].key);
    LookupDone(s, it);
    lost := Unharmed(got.cache);
    room := true;
    match comm {
      case Cas => StoreCas(s, got.cache, it, got.locked, got.found, g);
      case Append => lost, room := StoreAppend(s, got.cache, it, comm, got.locked, got.found, g);
      case Prepend => lost, room := StoreAppend(s, got.cache, it, comm, got.locked, got.found, g);
      case _ => StorePlain(s, got.cache, it, comm, got.locked, got.found, g);
    }
  }
}
