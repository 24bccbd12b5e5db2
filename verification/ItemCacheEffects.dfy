/** What the commands do to the entries that clients see, said of keys, contents and times. */
module ItemCacheEffects {
  import opened Seqs
  import opened ItemCache
  import opened ItemCacheSteps
  import opened ItemCacheOps
  import opened ItemCacheView
  import opened ItemCacheStore
  import opened ItemCacheStoreProof
  import opened ItemCacheRun
  import Slabs

  // ---- when the allocator has a chunk ----------------------------------------------------------------

  /** An item of this size belongs to a class, and the slab allocator gives a chunk at the first request. */
  predicate Granted(s: Cache, key: Key, flags: int, length: nat, g: Grants) {
    && 0 < Slabs.ClassId(s.classes, Footprint(key, flags, length)) < LARGEST_ID
    && g.first.Some? && g.first.value !in s.items
  }

  lemma GrantedRoom(s: Cache, key: Key, flags: int, exptime: nat, data: string, g: Grants)
    requires |s.lru| == LARGEST_ID && Granted(s, key, flags, |data|, g)
    ensures ItemCacheOps.Alloc(s, key, flags, exptime, data, g).1 == g.first
  {
    hide Footprint, Slabs.ClassId;
  }

  lemma FoundSame(s: Cache, key: Key)
    requires Get(s, key).found.Some?
    ensures var t := Get(s, key).cache;
            t.items.Keys == s.items.Keys && t.classes == s.classes && t.lru == s.lru && t.table == s.table
  {
    hide Unlink;
  }

  // ---- append and prepend -----------------------------------------------------------------------

  /** What append or prepend of w to d gives: the two without the line end between them. */
  predicate Spliced(comm: Command, d: string, w: string, r: string)
    requires |d| >= 2 && |w| >= 2
  {
    && |r| == |d| + |w| - 2
    && (comm == Append ==> r[..|d| - 2] == d[..|d| - 2] && r[|d| - 2..] == w)
    && (comm == Prepend ==> r[..|w| - 2] == w[..|w| - 2] && r[|w| - 2..] == d)
  }

  lemma JoinedSpliced(comm: Command, d: string, w: string)
    requires |d| >= 2 && |w| >= 2 && (comm == Append || comm == Prepend)
    ensures Spliced(comm, d, w, Joined(comm, d, w))
  {
  }

  /** A stored append or prepend leaves under its key the flags and expiry that were there, and the old and
      the new value one after the other with one line end. */
  lemma JoinStored(s: Cache, it: Addr, comm: Command, g: Grants)
    requires Valid(s) && it in s.items && !s.items[it].linked && !s.items[it].deleted
    requires (comm == Append || comm == Prepend) && Store(s, it, comm, g).1 == Stored
    ensures var i, u := s.items[it], Store(s, it, comm, g).0;
            && i.key in View(s) && i.key in View(u)
            && var was, now := View(s)[i.key], View(u)[i.key];
            && |was.data| >= 2 && |i.data| >= 2 && Spliced(comm, was.data, i.data, now.data)
            && now.flags == was.flags && now.exptime == was.exptime && now.time == s.now && !now.deleted
  {
    hide *;
    var i := s.items[it];
    var lost, room := StoreRefines(s, it, comm, g);
    JoinAdmitted(View(s), i, comm, s.now, s.oldestLive, s.casCounter + 1, lost, room, View(Store(s, it, comm, g).0));
    DataLength(s, it);
    EntryLength(s, i.key);
    JoinedSpliced(comm, View(s)[i.key].data, i.data);
  }

  /** It is stored whenever the key can be read and there is a chunk for it. */
  lemma JoinIsStored(s: Cache, it: Addr, comm: Command, g: Grants)
    requires Valid(s) && it in s.items && (comm == Append || comm == Prepend)
    requires var i := s.items[it];
             && Readable(View(s), i.key, s.now, s.oldestLive)
             && Granted(s, i.key, View(s)[i.key].flags, |View(s)[i.key].data| + |i.data| - 2, g)
    ensures Store(s, it, comm, g).1 == Stored
  {
    hide Core, LiveOk, View, Get, History, Holding, Granted, Store, StoreJoined;
    var i := s.items[it];
    GetEffect(s, i.key);
    GetReads(s, i.key);
    var t, a := Get(s, i.key).cache, Get(s, i.key).found.value;
    FoundSame(s, i.key);
    HoldingEntry(t, i.key, a);
    LruLength(s);
    TakenItem(s, i.key, it);
    DataLength(s, it);
    EntryLength(s, i.key);
    GrantedSame(s, t, i.key, t.items[a].flags, |t.items[a].data| + |i.data| - 2, g);
    JoinedRoom(t, a, it, comm, g);
    StoreIsJoined(s, it, comm, g);
  }

  lemma JoinedRoom(t: Cache, a: Addr, it: Addr, comm: Command, g: Grants)
    requires a in t.items && it in t.items && (comm == Append || comm == Prepend) && |t.lru| == LARGEST_ID
    requires |t.items[a].data| >= 2 && |t.items[it].data| >= 2
    requires Granted(t, t.items[it].key, t.items[a].flags, |t.items[a].data| + |t.items[it].data| - 2, g)
    ensures StoreJoined(t, a, it, comm, g).1 == Stored
  {
    hide Granted, Joined, PutOver, Remove, ItemCacheOps.Alloc;
    var o := t.items[a];
    var data := Joined(comm, o.data, t.items[it].data);
    JoinedSpliced(comm, o.data, t.items[it].data);
    GrantedRoom(t, t.items[it].key, o.flags, o.exptime, data, g);
    GrantedSome(t, t.items[it].key, o.flags, |data|, g);
  }

  lemma GrantedSome(s: Cache, key: Key, flags: int, length: nat, g: Grants)
    requires Granted(s, key, flags, length, g)
    ensures g.first.Some?
  {
    hide Footprint, Slabs.ClassId;
  }

  lemma StoreIsJoined(s: Cache, it: Addr, comm: Command, g: Grants)
    requires it in s.items && (comm == Append || comm == Prepend)
    requires var got := Get(s, s.items[it].key);
             got.found.Some? && !got.locked && got.found.value in got.cache.items && it in got.cache.items
    ensures var got := Get(s, s.items[it].key);
            Store(s, it, comm, g) == StoreJoined(got.cache, got.found.value, it, comm, g)
  {
    hide Get, StoreJoined;
  }

  lemma GrantedSame(s: Cache, t: Cache, key: Key, flags: int, length: nat, g: Grants)
    requires Granted(s, key, flags, length, g) && t.items.Keys == s.items.Keys && t.classes == s.classes
    ensures Granted(t, key, flags, length, g)
  {
    hide Footprint, Slabs.ClassId;
    assert g.first.value !in s.items.Keys;
  }

  /** A lookup changes no item but in its count. */
  lemma TakenItem(s: Cache, key: Key, it: Addr)
    requires it in s.items && Get(s, key).found.Some?
    ensures var t := Get(s, key).cache;
            it in t.items && t.items[it] == s.items[it].(refcount := t.items[it].refcount)
  {
    hide Unlink;
  }

  lemma EntryLength(s: Cache, key: Key)
    requires Valid(s) && key in View(s)
    ensures |View(s)[key].data| >= 2
  {
    hide LruOk, CountsOk, RefsOk, DeletedOk, SpareOk, TimeOk, CasOk, LiveOk;
    ViewAt(s, key);
  }

  lemma JoinAdmitted(view: map<Key, Entry>, i: Item, comm: Command, now: nat, oldest: nat, id: nat, lost: set<Key>,
                     room: bool, after: map<Key, Entry>)
    requires comm == Append || comm == Prepend
    requires Refines(Pruned(view, i.key, now, oldest), i, comm, now, id, lost, room, Stored, after)
    ensures i.key in view && i.key in after
    ensures var was := view[i.key];
            after[i.key] == Entry(was.flags, Joined(comm, was.data, i.data), was.exptime, now, false, id)
  {
    hide Joined;
  }

  /** With line ends: "v" and "w" give "vw" or "wv". */
  lemma JoinStoredText(s: Cache, it: Addr, comm: Command, g: Grants, v: string, w: string)
    requires Valid(s) && it in s.items && !s.items[it].linked && !s.items[it].deleted
    requires (comm == Append || comm == Prepend) && Store(s, it, comm, g).1 == Stored
    requires s.items[it].data == w + "\r\n"
    requires s.items[it].key in View(s) && View(s)[s.items[it].key].data == v + "\r\n"
    ensures var u := Store(s, it, comm, g).0; var key := s.items[it].key;
            key in View(u) && View(u)[key].data == (if comm == Append then v + w else w + v) + "\r\n"
  {
    hide Store, View, Valid;
    JoinStored(s, it, comm, g);
    var u := Store(s, it, comm, g).0;
    SplicedText(comm, v, w, View(u)[s.items[it].key].data);
  }

  lemma SplicedText(comm: Command, v: string, w: string, r: string)
    requires comm == Append || comm == Prepend
    requires Spliced(comm, v + "\r\n", w + "\r\n", r)
    ensures r == (if comm == Append then v + w else w + v) + "\r\n"
  {
    var a, b := if comm == Append then v else w, if comm == Append then w else v;
    assert (a + "\r\n")[..|a|] == a;
    assert r == r[..|a|] + r[|a|..];
    assert a + (b + "\r\n") == (a + b) + "\r\n";
  }

  // ---- delete --------------------------------------------------------------------------------------

  /** The key is there and under a delete lock. */
  predicate UnderLock(view: map<Key, Entry>, key: Key, now: nat) {
    key in view && view[key].deleted && now < view[key].exptime
  }

  /** delete without a delay: the key is gone, unless a delete lock holds it, and then nothing changes. */
  lemma DeleteNowEffect(s: Cache, key: Key)
    requires Valid(s)
    ensures var t := DeleteNow(s, key);
            && Valid(t) && t.held == s.held && t.now == s.now && t.oldestLive == s.oldestLive
            && View(t) == (if UnderLock(View(s), key, s.now) then View(s) else View(s) - {key})
            && Get(t, key).found == None
  {
    hide Core, LiveOk, View, Get, Unlink, Remove, History, Holding;
    GetEffect(s, key);
    PrunedIs(View(s), key, s.now, s.oldestLive);
    var g := Get(s, key);
    if g.found.Some? {
      var a := g.found.value;
      HoldingEntry(g.cache, key, a);
      UnlinkEffect(g.cache, key, a, a);
      HoldStays(g.cache, key, a);
      DropEffect(Unlink(g.cache, a), a, a);
      assert View(DeleteNow(s, key)) == View(g.cache) - {key};
      BackAgain(s.held, a);
    }
    GetEffect(DeleteNow(s, key), key);
    PrunedIs(View(DeleteNow(s, key)), key, s.now, s.oldestLive);
  }

  lemma HoldStays(s: Cache, key: Key, a: Addr)
    requires Valid(s) && Holding(s, key, a)
    ensures a in Unlink(s, a).items && Unlink(s, a).held[a] > 0
  {
    hide Core, LiveOk, View, Unlink, History;
    UnlinkEffect(s, key, a, a);
  }

  lemma BackAgain(held: multiset<Addr>, a: Addr)
    ensures held + multiset{a} - multiset{a} == held
  {
  }

  lemma PrunedIs(view: map<Key, Entry>, key: Key, now: nat, oldest: nat)
    ensures var p := Pruned(view, key, now, oldest);
            && p - {key} == view - {key}
            && (key in p ==> key in view && p == view && p[key] == view[key])
            && (key !in p ==> p == view - {key})
            && (UnderLock(view, key, now) <==> key in p && LockedAt(p[key], now))
  {
  }

  /** What delete of the given delay does to the entries and to the references held. */
  lemma DeleteEffect(s: Cache, key: Key, started: nat, room: bool)
    requires Valid(s)
    ensures var t := DoDelete(s, key, 0, started, room);
            && t.held == s.held
            && View(t) == (if UnderLock(View(s), key, s.now) then View(s) else View(s) - {key})
            && Get(t, key).found == None
  {
    DeleteNowEffect(s, key);
    hide DeleteNow, View, Get, Valid;
  }

  /** The key can be read. */
  predicate Readable(view: map<Key, Entry>, key: Key, now: nat, oldest: nat) {
    && key in view && !UnderLock(view, key, now)
    && (oldest == 0 || now < oldest || oldest < view[key].time)
    && (view[key].exptime == 0 || now < view[key].exptime)
  }

  lemma ReadableIs(view: map<Key, Entry>, key: Key, now: nat, oldest: nat)
    ensures Readable(view, key, now, oldest) <==>
            key in Pruned(view, key, now, oldest) && !LockedAt(view[key], now)
    ensures Readable(view, key, now, oldest) ==> Pruned(view, key, now, oldest) == view
  {
  }

  /** A lookup returns just the keys that can be read, and takes one reference. */
  lemma GetReads(s: Cache, key: Key)
    requires Valid(s)
    ensures var g := Get(s, key);
            && (g.found.Some? <==> Readable(View(s), key, s.now, s.oldestLive))
            && (g.locked <==> UnderLock(View(s), key, s.now))
            && (g.found.Some? ==>
                  && View(g.cache) == View(s) && g.cache.held == s.held + multiset{g.found.value}
                  && g.found == (if key in s.table then Some(s.table[key]) else None))
  {
    hide Core, LiveOk, View, Get, History, Holding;
    GetEffect(s, key);
    ReadableIs(View(s), key, s.now, s.oldestLive);
    PrunedIs(View(s), key, s.now, s.oldestLive);
    FoundIs(s, key);
  }

  lemma FoundIs(s: Cache, key: Key)
    ensures Get(s, key).found.Some? ==> key in s.table && Get(s, key).found.value == s.table[key]
  {
    hide Unlink, Take;
  }

  /** delete with a delay, when there is room on todelete: the entry stays with its new time and the flag of a
      delete lock; nobody's reference changes. */
  lemma DeferEffect(s: Cache, key: Key, delay: int, started: nat)
    requires Valid(s) && delay != 0 && Readable(View(s), key, s.now, s.oldestLive)
    ensures var t := DoDelete(s, key, delay, started, true);
            && key in s.table && t.held == s.held && t.todelete == s.todelete + [s.table[key]]
            && t.now == s.now && t.oldestLive == s.oldestLive && Valid(t)
            && View(t) ==
                 View(s)[key := View(s)[key].(exptime := Realtime(delay, started, s.now), deleted := true)]
  {
    hide Core, LiveOk, View, Get, History, Holding, Defer, Realtime;
    GetEffect(s, key);
    GetReads(s, key);
    var g := Get(s, key);
    var a, until := g.found.value, Realtime(delay, started, s.now);
    HoldingEntry(g.cache, key, a);
    DeferKeeps(g.cache, a, until);
    DeferView(g.cache, key, a, until);
    BackAgain(s.held, a);
  }

  lemma DeferView(s: Cache, key: Key, a: Addr, until: nat)
    requires Valid(s) && Holding(s, key, a)
    ensures var t := Defer(s, a, until);
            && View(t) == View(s)[key := View(s)[key].(exptime := until, deleted := true)]
            && t.held == s.held - multiset{a} && t.todelete == s.todelete + [a]
            && t.now == s.now && t.oldestLive == s.oldestLive
  {
    hide Valid, Core, LiveOk, Shape, CasOk, TableOk, View;
    ValidParts(s);
    HoldingParts(s, key, a);
    DeferTable(s, a, until);
    ViewChanged(s, Defer(s, a, until), key, a);
    ViewAt(s, key);
    HoldingEntry(s, key, a);
  }

  lemma DeferTable(s: Cache, a: Addr, until: nat)
    requires a in s.items
    ensures var t := Defer(s, a, until);
            && t.table == s.table && t.items == s.items[a := s.items[a].(exptime := until, deleted := true)]
  {
  }

  /** One item of the table is rewritten. */
  lemma ViewChanged(s: Cache, t: Cache, key: Key, a: Addr)
    requires TableOk(s) && key in s.table && s.table[key] == a && a in s.items && a in t.items
    requires t.table == s.table && t.items == s.items[a := t.items[a]]
    ensures View(t) == View(s)[key := EntryOf(t.items[a])]
  {
    hide EntryOf;
    forall k | k in s.table && k != key ensures s.table[k] != a {
      assert s.items[s.table[k]].key == k;
    }
  }

  /** realtime of a delay of up to thirty days, and of a time on the calendar. */
  lemma RealtimeIs(delay: int, started: nat, now: nat)
    ensures 0 < delay <= 2592000 && now + delay < WRAP32 ==> Realtime(delay, started, now) == now + delay
    ensures delay > 2592000 && delay <= started ==> Realtime(delay, started, now) == 1
    ensures delay > 2592000 && started < delay < started + WRAP32 ==> Realtime(delay, started, now) == delay - started
    ensures delay < 0 && 0 <= now + delay < WRAP32 ==> Realtime(delay, started, now) == now + delay
    ensures Realtime(0, started, now) == 0
  {
  }

  /** A delete put off for up to thirty days hides the key until its time has come and after it, and refuses
      add and replace, as a lock, just until then. */
  lemma DeferredHidden(s: Cache, key: Key, delay: int, started: nat, later: nat)
    requires Valid(s) && Readable(View(s), key, s.now, s.oldestLive)
    requires 0 < delay <= 2592000 && s.now + delay < WRAP32 && s.now <= later
    ensures var g := Get(DoDelete(s, key, delay, started, true).(now := later), key);
            g.found == None && (g.locked <==> later < s.now + delay)
  {
    hide Valid, View, Get, DoDelete, Realtime;
    DeferEffect(s, key, delay, started);
    RealtimeIs(delay, started, s.now);
    var t := DoDelete(s, key, delay, started, true);
    ClockKeeps(t, t.(now := later));
    SameView(t, later);
    GetReads(t.(now := later), key);
  }

  lemma SameView(s: Cache, now: nat)
    ensures View(s.(now := now)) == View(s)
  {
  }

  /** delete with a delay, when todelete cannot grow: the entries stay, and the reference is given back. */
  lemma NoRoomEffect(s: Cache, key: Key, delay: int, started: nat)
    requires Valid(s) && delay != 0 && Readable(View(s), key, s.now, s.oldestLive)
    ensures var t := DoDelete(s, key, delay, started, false);
            View(t) == View(s) && t.held == s.held && t.todelete == s.todelete
  {
    hide Core, LiveOk, View, Get, History, Holding, Remove, Realtime;
    GetEffect(s, key);
    GetReads(s, key);
    var a := Get(s, key).found.value;
    HoldingEntry(Get(s, key).cache, key, a);
    DropEffect(Get(s, key).cache, a, a);
    BackAgain(s.held, a);
  }

  // ---- get ----------------------------------------------------------------------------------------------

  /** A get of a key that can be read holds its item and, if it was not touched for a minute, stamps it with the
      time; nothing else changes for clients. */
  lemma FetchEffect(s: Cache, key: Key)
    requires Valid(s) && s.now < WRAP32 && Readable(View(s), key, s.now, s.oldestLive)
    ensures var t, e := DoFetch(s, key), View(s)[key];
            && key in s.table && t.held == s.held + multiset{s.table[key]}
            && View(t) == View(s)[key := e.(time := if s.now < 60 || e.time + 60 < s.now then s.now else e.time)]
  {
    hide Core, LiveOk, View, Get, Update, History, Holding, UpdateDue;
    GetEffect(s, key);
    GetReads(s, key);
    var g := Get(s, key);
    var a := g.found.value;
    HoldingEntry(g.cache, key, a);
    HoldingParts(g.cache, key, a);
    ValidParts(g.cache);
    TimeBound(g.cache, a);
    UpdateView(g.cache, a);
    UpdateHolds(g.cache, a);
    DueIs(g.cache.items[a].time, s.now);
    var e := View(s)[key];
    assert View(s)[key := e.(time := e.time)] == View(s);
  }

  lemma DueIs(time: nat, now: nat)
    requires time <= now < WRAP32
    ensures UpdateDue(time, now) <==> now < 60 || time + 60 < now
  {
  }

  /** That item goes to the head of its list; the rest of this list and all others stay in their order. */
  lemma FetchHead(s: Cache, key: Key)
    requires Valid(s) && s.now < WRAP32 && Readable(View(s), key, s.now, s.oldestLive)
    requires s.now < 60 || View(s)[key].time + 60 < s.now
    ensures var t := DoFetch(s, key);
            && key in s.table && s.table[key] in s.items && |t.lru| == |s.lru|
            && var a := s.table[key];
            && var c := s.items[a].clsid;
            && c < |s.lru| && Moved(s.lru[c], a, t.lru[c])
            && forall d :: 0 <= d < |s.lru| && d != c ==> t.lru[d] == s.lru[d]
  {
    hide Core, LiveOk, View, Get, Update, History, Holding, Moved;
    GetEffect(s, key);
    GetReads(s, key);
    var g := Get(s, key);
    FoundSame(s, key);
    HoldingEntry(g.cache, key, g.found.value);
    HoldingParts(g.cache, key, g.found.value);
    TakenItem(s, key, g.found.value);
    UpdateHead(g.cache, g.found.value);
  }

  predicate Moved(was: seq<Addr>, a: Addr, r: seq<Addr>) {
    a in was && exists j :: 0 <= j < |was| && was[j] == a && r == [a] + was[..j] + was[j + 1..]
  }

  lemma UpdateHead(s: Cache, a: Addr)
    requires Valid(s) && a in s.items && s.items[a].linked && s.now < WRAP32
    requires s.now < 60 || s.items[a].time + 60 < s.now
    ensures var t, c := Update(s, a), s.items[a].clsid;
            && c < |s.lru| == |t.lru| && Moved(s.lru[c], a, t.lru[c])
            && forall d :: 0 <= d < |s.lru| && d != c ==> t.lru[d] == s.lru[d]
  {
    hide Valid, UpdateDue, Without, Moved;
    TimeBound(s, a);
    DueIs(s.items[a].time, s.now);
    var c := s.items[a].clsid;
    InItsList(s, a);
    WithoutMoved(s.lru[c], a);
    assert Update(s, a).lru == s.lru[c := [a] + Without(s.lru[c], a)];
  }

  lemma InItsList(s: Cache, a: Addr)
    requires Valid(s) && a in s.items && s.items[a].linked
    ensures InUse(s, a) && a in s.lru[s.items[a].clsid] && NoDup(s.lru[s.items[a].clsid])
  {
    hide TableOk, CountsOk, RefsOk, DeletedOk, SpareOk, TimeOk, CasOk, LiveOk, NoDup;
    assert s.items[a].clsid < LARGEST_ID;
  }

  lemma WithoutMoved(list: seq<Addr>, a: Addr)
    requires NoDup(list) && a in list
    ensures Moved(list, a, [a] + Without(list, a))
  {
    var j :| 0 <= j < |list| && list[j] == a;
    WithoutAt(list, a, j);
    hide Without, NoDup;
    assert [a] + (list[..j] + list[j + 1..]) == [a] + list[..j] + list[j + 1..];
  }

  /** A get of any other key changes nothing but that a flushed or expired entry goes. */
  lemma FetchMisses(s: Cache, key: Key)
    requires Valid(s) && !Readable(View(s), key, s.now, s.oldestLive)
    ensures var t := DoFetch(s, key);
            && t.held == s.held
            && View(t) == if UnderLock(View(s), key, s.now) then View(s) else View(s) - {key}
  {
    hide Core, LiveOk, View, Get, Update, History, Holding;
    GetEffect(s, key);
    GetReads(s, key);
    PrunedIs(View(s), key, s.now, s.oldestLive);
  }

  // ---- the command line of a storage command -------------------------------------------------------------

  /** A chunk is had, with the client's cas id in it, or the old value of a set goes. */
  lemma BeginEffect(s: Cache, key: Key, flags: int, exptime: nat, data: string, casId: nat, isSet: bool, g: Grants)
    returns (lost: set<Key>, room: Option<Addr>)
    requires Valid(s) && |data| >= 2
    ensures Idle(s, lost) && (Granted(s, key, flags, |data|, g) ==> room == g.first)
    ensures var t := DoBegin(s, key, flags, exptime, data, casId, isSet, g);
            && (room.Some? ==>
                  && View(t) == View(s) - lost && t.held == s.held + multiset{room.value}
                  && NewChunk(t, room.value, key, flags, exptime, data) && t.items[room.value].casId == casId)
            && (room.None? && !isSet ==> View(t) == View(s) - lost && t.held == s.held)
            && (room.None? && isSet ==>
                  && t.held == s.held && Get(t, key).found == None
                  && View(t) == if UnderLock(View(s) - lost, key, s.now) then View(s) - lost
                                else View(s) - lost - {key})
  {
    hide Core, LiveOk, View, Get, History, ItemCacheOps.Alloc, DeleteNow, WithCas, Idle, NewChunk, Granted;
    lost := AllocEffect(s, key, flags, exptime, data, g, 0);
    var t := ItemCacheOps.Alloc(s, key, flags, exptime, data, g).0;
    room := ItemCacheOps.Alloc(s, key, flags, exptime, data, g).1;
    LruLength(s);
    if Granted(s, key, flags, |data|, g) {
      GrantedRoom(s, key, flags, exptime, data, g);
    }
    if room.Some? {
      WithCasEffect(t, room.value, casId, key, flags, exptime, data);
    } else if isSet {
      DeleteNowEffect(t, key);
    }
  }

  lemma WithCasEffect(s: Cache, a: Addr, casId: nat, key: Key, flags: int, exptime: nat, data: string)
    requires Valid(s) && NewChunk(s, a, key, flags, exptime, data)
    ensures var t := WithCas(s, a, casId);
            && View(t) == View(s) && t.held == s.held && NewChunk(t, a, key, flags, exptime, data)
            && t.items[a].casId == casId
  {
    hide Valid, Core, LiveOk, Shape, CasOk, TableOk, EntryOf;
    ValidParts(s);
    forall k | k in s.table ensures s.table[k] != a && s.table[k] in s.items {
      InTableLinked(s, k);
    }
  }

  lemma InTableLinked(s: Cache, key: Key)
    requires TableOk(s) && key in s.table
    ensures s.table[key] in s.items && s.items[s.table[key]].linked
  {
  }

  // ---- the size of an item -----------------------------------------------------------------------------------

  function Decimal(n: nat): string {
    if n < 10 then ["0123456789"[n]] else Decimal(n / 10) + ["0123456789"[n % 10]]
  }

  /** The number that digits denote. */
  function Denoted(digits: string): nat {
    if digits == [] then 0
    else
      var d := digits[|digits| - 1];
      10 * Denoted(digits[..|digits| - 1]) + if '0' <= d <= '9' then d as int - '0' as int else 0
  }

  function Shown(n: int): string {
    if n < 0 then "-" + Decimal(-n) else Decimal(n)
  }

  /** Decimal writes digits, no zero in front of a number but 0 itself, that denote the number. */
  lemma {:induction false} DecimalIs(n: nat)
    ensures |Decimal(n)| == Digits(n) && Denoted(Decimal(n)) == n
    ensures forall c :: c in Decimal(n) ==> '0' <= c <= '9'
    ensures n > 0 ==> Decimal(n)[0] != '0'
  {
    if n >= 10 {
      DecimalIs(n / 10);
      var r := Decimal(n / 10);
      assert Decimal(n)[..|Decimal(n)| - 1] == r;
    } else {
      assert Decimal(n)[..0] == [];
    }
  }

  /** The room asked for is that of the header, the key with its null byte, the text " flags length\r\n" that
      stands in a VALUE reply, and the data. */
  lemma FootprintIs(key: Key, flags: int, data: string)
    requires |data| >= 2
    ensures Footprint(key, flags, |data|) ==
            56 + |key + "\0" + " " + Shown(flags) + " " + Shown(|data| - 2) + "\r\n" + data|
  {
    DecimalIs(|data| - 2);
    DecimalIs(if flags < 0 then -flags else flags);
    hide Digits, Decimal;
  }

  // ---- incr and decr ---------------------------------------------------------------------------------------

  /** The new number at the front, spaces behind it, and the line end that was there. */
  predicate Renumbered(was: string, text: string, r: string)
    requires |text| + 2 <= |was|
  {
    && |r| == |was| && r[..|text|] == text && r[|was| - 2..] == was[|was| - 2..]
    && forall j :: |text| <= j < |was| - 2 ==> r[j] == ' '
  }

  lemma {:induction false} SpacesAre(n: nat)
    ensures |Spaces(n)| == n && forall j :: 0 <= j < n ==> Spaces(n)[j] == ' '
  {
    if n > 0 {
      SpacesAre(n - 1);
    }
  }

  lemma RewriteText(s: Cache, a: Addr, text: string)
    requires a in s.items && |text| + 2 <= |s.items[a].data|
    ensures var t := Rewrite(s, a, text);
            && a in t.items && t.items == s.items[a := t.items[a]] && t.table == s.table && t.held == s.held
            && t.items[a] == s.items[a].(data := t.items[a].data, casId := s.casCounter + 1)
            && Renumbered(s.items[a].data, text, t.items[a].data)
  {
    var was := s.items[a].data;
    var n := |was| - 2 - |text|;
    SpacesAre(n);
    var sp := Spaces(n);
    hide Spaces;
    var r := text + sp + was[|was| - 2..];
    assert Rewrite(s, a, text).items[a].data == r;
    assert forall j :: |text| <= j < |was| - 2 ==> r[j] == sp[j - |text|];
  }

  /** incr or decr of a number that is not longer than the old value: the value is overwritten in place and
      draws a new cas id; flags, expiry and time stay. */
  lemma IncrInPlace(s: Cache, key: Key, text: string, g: Grants)
    requires Valid(s) && Readable(View(s), key, s.now, s.oldestLive) && |text| + 2 <= |View(s)[key].data|
    ensures var t, e := DoIncr(s, key, text, g), View(s)[key];
            && t.held == s.held && key in View(t)
            && Renumbered(e.data, text, View(t)[key].data)
            && View(t) == View(s)[key := e.(data := View(t)[key].data, casId := s.casCounter + 1)]
  {
    hide Core, LiveOk, View, Get, History, Holding, Rewrite, Remove, Renumbered, Supplant, ItemCacheOps.Alloc;
    GetEffect(s, key);
    GetReads(s, key);
    var t, a := Get(s, key).cache, Get(s, key).found.value;
    HoldingEntry(t, key, a);
    HoldingParts(t, key, a);
    RewriteKeeps(t, key, a, text);
    RewriteText(t, a, text);
    var u := Rewrite(t, a, text);
    ValidParts(t);
    HoldingTable(t, key, a);
    hide TableOk;
    ViewChanged(t, u, key, a);
    DropEffect(u, a, a);
    BackAgain(s.held, a);
  }

  lemma HoldingTable(s: Cache, key: Key, a: Addr)
    requires Holding(s, key, a)
    ensures key in s.table && s.table[key] == a
  {
  }

  /** incr or decr of a longer number: a new item takes the place of the old one, with its flags and expiry, the
      number and a line end; if no chunk is had nothing changes but an eviction. */
  lemma IncrReplaced(s: Cache, key: Key, text: string, g: Grants) returns (lost: set<Key>, room: bool)
    requires Valid(s) && Readable(View(s), key, s.now, s.oldestLive) && |text| + 2 > |View(s)[key].data|
    ensures key !in lost && Idle(Get(s, key).cache, lost)
    ensures Granted(s, key, View(s)[key].flags, |text| + 2, g) ==> room
    ensures var t, e := DoIncr(s, key, text, g), View(s)[key];
            && t.held == s.held
            && View(t) == if room then (View(s) - lost)[key :=
                              Entry(e.flags, text + "\r\n", e.exptime, s.now, false, s.casCounter + 1)]
                          else View(s) - lost
  {
    hide Core, LiveOk, View, Get, History, Holding, Remove, AddDelta, NewChunk, Idle, Granted, ItemCacheOps.Alloc;
    GetEffect(s, key);
    GetReads(s, key);
    var t, a := Get(s, key).cache, Get(s, key).found.value;
    HoldingEntry(t, key, a);
    HoldingParts(t, key, a);
    GrantedFound(s, key, t.items[a].flags, t.items[a].exptime, text + "\r\n", g);
    lost, room := LongerNumber(t, key, a, text, g);
    BackAgain(s.held, a);
  }

  lemma LongerNumber(t: Cache, key: Key, a: Addr, text: string, g: Grants) returns (lost: set<Key>, room: bool)
    requires Valid(t) && Holding(t, key, a) && a in t.items && t.items[a].key == key
    requires |text| + 2 > |t.items[a].data|
    ensures Idle(t, lost) && key !in lost
    ensures room == ItemCacheOps.Alloc(t, key, t.items[a].flags, t.items[a].exptime, text + "\r\n", g).1.Some?
    ensures var u, it := Remove(AddDelta(t, a, text, g), a), t.items[a];
            && u.held == t.held - multiset{a}
            && View(u) == if room then (View(t) - lost)[key :=
                              Entry(it.flags, text + "\r\n", it.exptime, t.now, false, t.casCounter + 1)]
                          else View(t) - lost
  {
    hide Core, LiveOk, View, Holding, Remove, Supplant, ItemCacheOps.Alloc, AddDelta, NewChunk, Idle, History, Valid;
    LongerIs(t, a, text, g);
    lost := JoinAlloc(t, key, a, text + "\r\n", g);
    var it := t.items[a];
    var (u, n) := ItemCacheOps.Alloc(t, key, it.flags, it.exptime, text + "\r\n", g);
    room := n.Some?;
    HoldingHeld(t, key, a);
    HoldingParts(u, key, a);
    if room {
      HeldTwice(t.held, a, n.value);
      IncrSupplanted(u, key, a, n.value, it.flags, it.exptime, text + "\r\n");
    } else {
      HoldingEntry(u, key, a);
      DropEffect(u, a, a);
    }
  }

  lemma LongerIs(t: Cache, a: Addr, text: string, g: Grants)
    requires a in t.items && |text| + 2 > |t.items[a].data|
    ensures var it := t.items[a];
            var (u, n) := ItemCacheOps.Alloc(t, it.key, it.flags, it.exptime, text + "\r\n", g);
            AddDelta(t, a, text, g) == if n.Some? then Remove(Supplant(u, a, n.value), n.value) else u
  {
    hide ItemCacheOps.Alloc, Supplant, Remove;
  }

  lemma HoldingHeld(s: Cache, key: Key, a: Addr)
    requires Holding(s, key, a)
    ensures s.held[a] > 0
  {
  }

  lemma HeldTwice(held: multiset<Addr>, a: Addr, n: Addr)
    requires held[a] > 0
    ensures held + multiset{n} - multiset{n} - multiset{a} == held - multiset{a}
    ensures (held + multiset{n} - multiset{n})[a] > 0
  {
  }

  lemma GrantedFound(s: Cache, key: Key, flags: int, exptime: nat, data: string, g: Grants)
    requires Valid(s) && Get(s, key).found.Some?
    ensures Granted(s, key, flags, |data|, g) ==>
              ItemCacheOps.Alloc(Get(s, key).cache, key, flags, exptime, data, g).1.Some?
  {
    hide Valid, Get, Granted, ItemCacheOps.Alloc;
    FoundSame(s, key);
    LruLength(s);
    if Granted(s, key, flags, |data|, g) {
      GrantedSame(s, Get(s, key).cache, key, flags, |data|, g);
      GrantedRoom(Get(s, key).cache, key, flags, exptime, data, g);
      GrantedSome(s, key, flags, |data|, g);
    }
  }

  lemma IncrSupplanted(u: Cache, key: Key, a: Addr, n: Addr, flags: int, exptime: nat, data: string)
    requires Valid(u) && Holding(u, key, a) && NewChunk(u, n, key, flags, exptime, data) && n != a
    requires (u.held - multiset{n})[a] > 0
    ensures var v := Remove(Remove(Supplant(u, a, n), n), a);
            && v.held == u.held - multiset{n} - multiset{a}
            && View(v) == View(u)[key := Entry(flags, data, exptime, u.now, false, u.casCounter + 1)]
  {
    hide Core, LiveOk, View, Supplant, Remove, History, Holding, NewChunk;
    SupplantView(u, key, a, n, flags, exptime, data);
    var v := Remove(Supplant(u, a, n), n);
    HeldInUse(v, a);
    DropEffect(v, a, a);
  }

  lemma SupplantView(t: Cache, key: Key, a: Addr, n: Addr, flags: int, exptime: nat, data: string)
    requires Valid(t) && Holding(t, key, a) && NewChunk(t, n, key, flags, exptime, data) && n != a
    ensures var u := Remove(Supplant(t, a, n), n);
            && Valid(u) && u.held == t.held - multiset{n}
            && View(u) == View(t)[key := Entry(flags, data, exptime, t.now, false, t.casCounter + 1)]
  {
    hide Core, LiveOk, View, Unlink, Link, Remove, History, Holding;
    UnlinkEffect(t, key, a, n);
    LinkEffect(Unlink(t, a), n, n);
    DropEffect(Supplant(t, a, n), n, n);
    var e := Entry(flags, data, exptime, t.now, false, t.casCounter + 1);
    assert (View(t) - {key})[key := e] == View(t)[key := e];
  }

  // ---- the deferred deletes ----------------------------------------------------------------------------------

  predicate DueItem(items: map<Addr, Item>, a: Addr, now: nat) {
    a in items && items[a].exptime <= now
  }

  /** The entries whose time has not come, in order. */
  function NotYet(items: map<Addr, Item>, q: seq<Addr>, now: nat): seq<Addr> {
    if q == [] then []
    else (if DueItem(items, q[0], now) then [] else [q[0]]) + NotYet(items, q[1..], now)
  }

  /** The keys whose items wait in q and are due. */
  ghost function DueKeys(s: Cache, q: seq<Addr>): set<Key> {
    set k | k in s.table && s.table[k] in q && DueItem(s.items, s.table[k], s.now)
  }

  /** An item loses its flag and its link, and a count; the others stay, and no time changes. */
  ghost predicate Reclaimed(s: Cache, u: Cache, a: Addr) {
    && u.now == s.now && u.held == s.held
    && (forall b :: b in u.items ==>
          b in s.items && u.items[b].exptime == s.items[b].exptime && u.items[b].key == s.items[b].key
          && (b != a ==> u.items[b] == s.items[b]))
    && (forall b :: b in s.items && b != a ==> b in u.items)
    && (a in u.items ==> !u.items[a].linked)
  }

  lemma ReclaimParts(s: Cache, i: nat)
    requires Valid(s) && i < |s.todelete| && Due(s, i)
    ensures var a, u := s.todelete[i], Reclaim(s, i);
            && a in s.items && Valid(u) && Reclaimed(s, u, a) && u.todelete == Omit(s.todelete, i)
            && u.table == (if s.items[a].linked then s.table - {s.items[a].key} else s.table)
  {
    hide Core, LiveOk, Omit, Unlink, Remove, Unqueued, Reclaimed, Due;
    var a := s.todelete[i];
    ReclaimKeeps(s, i);
    ValidRefs(s);
    QueuedRef(s, i);
    UnqueuedKeeps(s, i);
    UnqueuedParts(s, i);
    var t := Unqueued(s, i);
    ValidParts(t);
    HeldCounted(t, a);
    UnlinkParts(t, a);
    RemoveParts(Unlink(t, a), a);
    ReclaimedFrom(s, t, Unlink(t, a), Reclaim(s, i), a);
  }

  lemma ValidRefs(s: Cache)
    requires Valid(s)
    ensures RefsOk(s)
  {
    hide Shape, TableOk, LruOk, CountsOk, RefsOk, DeletedOk, SpareOk, TimeOk, CasOk, LiveOk;
  }

  lemma UnqueuedParts(s: Cache, i: nat)
    requires i < |s.todelete| && s.todelete[i] in s.items
    ensures var a, t := s.todelete[i], Unqueued(s, i);
            && t.items == s.items[a := s.items[a].(deleted := false)] && t.table == s.table && t.now == s.now
            && t.todelete == Omit(s.todelete, i) && t.held == s.held + multiset{a}
  {
    hide Omit;
  }

  lemma UnlinkParts(s: Cache, a: Addr)
    requires Shape(s) && a in s.items && s.items[a].refcount > 0
    ensures var t := Unlink(s, a);
            && t.items == s.items[a := s.items[a].(linked := false)] && t.now == s.now && t.held == s.held
            && t.todelete == s.todelete
            && t.table == if s.items[a].linked then s.table - {s.items[a].key} else s.table
  {
    hide Total, Without;
  }

  lemma RemoveParts(s: Cache, a: Addr)
    requires a in s.items && !s.items[a].linked
    ensures var t := Remove(s, a);
            && t.table == s.table && t.now == s.now && t.held == s.held - multiset{a} && t.todelete == s.todelete
            && (forall b :: b in t.items ==> b in s.items && (b != a ==> t.items[b] == s.items[b]))
            && (forall b :: b in s.items && b != a ==> b in t.items)
            && (a in t.items ==> t.items[a] == s.items[a].(refcount := t.items[a].refcount))
  {
  }

  lemma ReclaimedFrom(s: Cache, t: Cache, u: Cache, v: Cache, a: Addr)
    requires a in s.items && t.items == s.items[a := s.items[a].(deleted := false)] && t.held == s.held + multiset{a}
    requires u.items == t.items[a := t.items[a].(linked := false)] && u.held == t.held
    requires v.held == u.held - multiset{a} && v.now == s.now
    requires forall b :: b in v.items ==> b in u.items && (b != a ==> v.items[b] == u.items[b])
    requires forall b :: b in u.items && b != a ==> b in v.items
    requires a in v.items ==> v.items[a] == u.items[a].(refcount := v.items[a].refcount)
    ensures Reclaimed(s, v, a)
  {
    BackAgain(s.held, a);
  }

  lemma {:induction false} NotYetSame(m: map<Addr, Item>, m': map<Addr, Item>, q: seq<Addr>, now: nat)
    requires forall a :: a in q ==> a in m && a in m' && m'[a].exptime == m[a].exptime
    ensures NotYet(m', q, now) == NotYet(m, q, now)
  {
    if q != [] {
      NotYetSame(m, m', q[1..], now);
    }
  }

  /** do_run_deferred_deletes from entry i on: the entries that are due leave todelete, the others stay in their
      order; just the keys of the items that were due are gone, and no reference that a caller holds. */
  lemma {:induction false} ReapEffect(s: Cache, i: nat)
    requires Valid(s) && i <= |s.todelete|
    ensures var t := ReapFrom(s, i);
            && Valid(t) && t.held == s.held
            && t.todelete == s.todelete[..i] + NotYet(s.items, s.todelete[i..], s.now)
            && t.table == s.table - DueKeys(s, s.todelete[i..])
            && (forall a :: a in t.items ==>
                  && a in s.items && (t.items[a].linked ==> t.items[a] == s.items[a])
                  && (a in s.todelete[i..] && DueItem(s.items, a, s.now) ==> !t.items[a].linked))
    decreases |s.todelete| - i
  {
    hide Valid, Reclaim, DueKeys, NotYet, Reclaimed, Omit;
    if i == |s.todelete| {
      NoneDue(s, i);
    } else {
      QueuedIn(s, i);
      if DueItem(s.items, s.todelete[i], s.now) {
        ReclaimParts(s, i);
        ReclaimLength(s, i);
        ReapEffect(Reclaim(s, i), i);
        ReapDue(s, Reclaim(s, i), i);
      } else {
        ReapEffect(s, i + 1);
        ReapKept(s, i);
      }
    }
  }

  lemma QueuedIn(s: Cache, i: nat)
    requires Valid(s) && i < |s.todelete|
    ensures s.todelete[i] in s.items
  {
    hide Core, LiveOk;
    ValidRefs(s);
    QueuedRef(s, i);
  }

  lemma NoneDue(s: Cache, i: nat)
    requires i == |s.todelete|
    ensures s.todelete[..i] + NotYet(s.items, s.todelete[i..], s.now) == s.todelete
    ensures s.table - DueKeys(s, s.todelete[i..]) == s.table
  {
    assert s.todelete[i..] == [];
    assert DueKeys(s, []) == {};
  }

  lemma ReapKept(s: Cache, i: nat)
    requires i < |s.todelete| && !DueItem(s.items, s.todelete[i], s.now)
    ensures s.todelete[..i] + NotYet(s.items, s.todelete[i..], s.now) ==
            s.todelete[..i + 1] + NotYet(s.items, s.todelete[i + 1..], s.now)
    ensures DueKeys(s, s.todelete[i..]) == DueKeys(s, s.todelete[i + 1..])
    ensures forall b :: b in s.todelete[i..] && DueItem(s.items, b, s.now) ==> b in s.todelete[i + 1..]
  {
    var a, rest := s.todelete[i], s.todelete[i + 1..];
    assert s.todelete[i..] == [a] + rest;
    assert s.todelete[..i + 1] == s.todelete[..i] + [a];
    hide DueItem;
    assert NotYet(s.items, [a] + rest, s.now) == [a] + NotYet(s.items, ([a] + rest)[1..], s.now);
    assert ([a] + rest)[1..] == rest;
  }

  lemma ReapDue(s: Cache, u: Cache, i: nat)
    requires Valid(s) && Valid(u) && i < |s.todelete| && DueItem(s.items, s.todelete[i], s.now)
    requires Reclaimed(s, u, s.todelete[i]) && u.todelete == Omit(s.todelete, i)
    requires u.table == if s.items[s.todelete[i]].linked then s.table - {s.items[s.todelete[i]].key} else s.table
    ensures |u.todelete| >= i && u.now == s.now && u.held == s.held
    ensures s.todelete[..i] + NotYet(s.items, s.todelete[i..], s.now) ==
            u.todelete[..i] + NotYet(u.items, u.todelete[i..], u.now)
    ensures u.table - DueKeys(u, u.todelete[i..]) == s.table - DueKeys(s, s.todelete[i..])
    ensures forall b :: b in u.items ==>
              b in s.items && (u.items[b].linked ==> b != s.todelete[i] && u.items[b] == s.items[b])
    ensures forall b :: b in s.todelete[i..] && DueItem(s.items, b, s.now) ==>
              b == s.todelete[i] || (b in u.todelete[i..] && (b in u.items ==> DueItem(u.items, b, u.now)))
  {
    hide Core, LiveOk, DueKeys, NotYet;
    var a, rest := s.todelete[i], s.todelete[i + 1..];
    assert s.todelete[i..] == [a] + rest && ([a] + rest)[1..] == rest;
    assert u.todelete[..i] == s.todelete[..i] && u.todelete[i..] == rest;
    hide Omit;
    ValidRefs(s);
    ValidRefs(u);
    forall b | b in rest ensures b in s.items && b in u.items {
      assert b in s.todelete;
      assert b in u.todelete;
    }
    NotYetSame(s.items, u.items, rest, s.now);
    NotYetDue(s.items, a, rest, s.now);
    ReapKeys(s, u, a, rest);
  }

  lemma NotYetDue(m: map<Addr, Item>, a: Addr, rest: seq<Addr>, now: nat)
    requires DueItem(m, a, now)
    ensures NotYet(m, [a] + rest, now) == NotYet(m, rest, now)
  {
    assert ([a] + rest)[1..] == rest;
    assert [] + NotYet(m, rest, now) == NotYet(m, rest, now);
  }

  lemma ReapKeys(s: Cache, u: Cache, a: Addr, rest: seq<Addr>)
    requires Valid(s) && a in s.items && DueItem(s.items, a, s.now) && Reclaimed(s, u, a)
    requires u.table == if s.items[a].linked then s.table - {s.items[a].key} else s.table
    ensures u.table - DueKeys(u, rest) == s.table - DueKeys(s, [a] + rest)
  {
    hide Valid, DueKeys, Reclaimed, DueItem;
    var l, r := u.table - DueKeys(u, rest), s.table - DueKeys(s, [a] + rest);
    forall k ensures k in l <==> k in r {
      ReapKey(s, u, a, rest, k);
    }
    assert l.Keys == r.Keys;
  }

  lemma ReapKey(s: Cache, u: Cache, a: Addr, rest: seq<Addr>, k: Key)
    requires Valid(s) && a in s.items && DueItem(s.items, a, s.now) && Reclaimed(s, u, a)
    requires u.table == if s.items[a].linked then s.table - {s.items[a].key} else s.table
    ensures k in u.table && k !in DueKeys(u, rest) <==> k in s.table && k !in DueKeys(s, [a] + rest)
  {
    hide Core, LiveOk, DueKeys;
    if k in s.table {
      TableEntry(s, k, a);
    }
    DueKeyIs(s, [a] + rest, k);
    DueKeyIs(u, rest, k);
    hide Valid;
  }

  lemma TableEntry(s: Cache, k: Key, a: Addr)
    requires Valid(s) && k in s.table && a in s.items
    ensures s.table[k] in s.items
    ensures s.table[k] == a <==> s.items[a].linked && k == s.items[a].key
  {
    ValidParts(s);
    hide Valid, Core, LiveOk, Shape, CasOk;
  }

  /** The entries that clients see after the deferred deletes have run: all but those that waited and were due. */
  lemma ReapView(s: Cache, key: Key)
    requires Valid(s)
    ensures var t := ReapFrom(s, 0);
            && t.todelete == NotYet(s.items, s.todelete, s.now) && t.held == s.held
            && (key in View(t) <==>
                  key in View(s) && key in s.table && !(s.table[key] in s.todelete && View(s)[key].exptime <= s.now))
            && (key in View(t) ==> View(t)[key] == View(s)[key])
  {
    hide Core, LiveOk, ReapFrom, NotYet, DueKeys, View;
    ReapEffect(s, 0);
    var t := ReapFrom(s, 0);
    assert s.todelete[0..] == s.todelete && s.todelete[..0] == [];
    ValidParts(s);
    ValidParts(t);
    hide Valid, TableOk;
    ViewAt(s, key);
    ViewAt(t, key);
    DueKeyIs(s, s.todelete, key);
  }

  lemma DueKeyIs(s: Cache, q: seq<Addr>, key: Key)
    ensures key in DueKeys(s, q) <==> key in s.table && s.table[key] in q && DueItem(s.items, s.table[key], s.now)
  {
  }

  /** An item that waited, was due and is in no caller's hands goes back to its slab. */
  lemma ReapFrees(s: Cache, a: Addr)
    requires Valid(s) && a in s.todelete && DueItem(s.items, a, s.now) && s.held[a] == 0
    ensures a !in ReapFrom(s, 0).items
  {
    hide Core, LiveOk, ReapFrom, NotYet, DueKeys;
    ReapEffect(s, 0);
    var t := ReapFrom(s, 0);
    assert s.todelete[0..] == s.todelete && s.todelete[..0] == [];
    NotYetOnly(s.items, s.todelete, s.now, a);
    if a in t.items {
      HeldOrLinked(t, a);
    }
  }

  lemma {:induction false} NotYetOnly(m: map<Addr, Item>, q: seq<Addr>, now: nat, a: Addr)
    ensures a in NotYet(m, q, now) <==> a in q && !DueItem(m, a, now)
  {
    if q != [] {
      NotYetOnly(m, q[1..], now, a);
    }
  }

  lemma HeldOrLinked(t: Cache, a: Addr)
    requires Valid(t) && a in t.items && a !in t.todelete
    ensures t.items[a].linked || t.held[a] > 0
  {
    hide Shape, TableOk, LruOk, CountsOk, DeletedOk, SpareOk, TimeOk, CasOk;
    assert a !in multiset(t.todelete);
  }

  // ---- eviction ------------------------------------------------------------------------------------------------

  /** r is the unreferenced item nearest to the tail among the last `tries` of the list, if there is one. */
  predicate Nearest(items: map<Addr, Item>, list: seq<Addr>, tries: nat, r: Option<Addr>)
    requires forall a :: a in list ==> a in items
  {
    var first := if tries < |list| then |list| - tries else 0;
    match r
    case None => forall j :: first <= j < |list| ==> items[list[j]].refcount > 0
    case Some(a) =>
      exists k :: first <= k < |list| && list[k] == a && items[list[k]].refcount == 0
                  && forall j :: k < j < |list| ==> items[list[j]].refcount > 0
  }

  lemma {:induction false} EvictNearest(items: map<Addr, Item>, list: seq<Addr>, tries: nat)
    requires forall a :: a in list ==> a in items
    ensures Nearest(items, list, tries, EvictTarget(items, list, tries))
    decreases tries
  {
    if list != [] && tries > 0 {
      var tail := |list| - 1;
      if items[list[tail]].refcount > 0 {
        EvictNearest(items, list[..tail], tries - 1);
        NearestStep(items, list, tries, EvictTarget(items, list[..tail], tries - 1));
      }
    }
  }

  lemma NearestStep(items: map<Addr, Item>, list: seq<Addr>, tries: nat, r: Option<Addr>)
    requires (forall a :: a in list ==> a in items) && list != [] && tries > 0
    requires items[list[|list| - 1]].refcount > 0 && Nearest(items, list[..|list| - 1], tries - 1, r)
    ensures Nearest(items, list, tries, r)
  {
    var tail := |list| - 1;
    var rest := list[..tail];
    assert forall j :: 0 <= j < tail ==> rest[j] == list[j] && rest[j] in items;
    if r.Some? {
      var k :| 0 <= k < tail && (tries <= tail ==> tail - (tries - 1) <= k) && rest[k] == r.value
               && items[rest[k]].refcount == 0
               && forall j :: k < j < tail ==> items[rest[j]].refcount > 0;
      assert list[k] == r.value;
      forall j | k < j < |list| ensures items[list[j]].refcount > 0 {
        assert j < tail ==> list[j] == rest[j];
      }
    } else {
      forall j | (if tries < |list| then |list| - tries else 0) <= j < |list| ensures items[list[j]].refcount > 0 {
        assert j < tail ==> list[j] == rest[j];
      }
    }
  }

  /** The slab allocator gives nothing at first.  Without eviction nothing happens; otherwise just the
      unreferenced item nearest to the tail of its class, if one is among the last fifty, is taken out of the
      cache, and the chunk, if one is had, is what the allocator gives at the second request. */
  lemma AllocEvicts(s: Cache, key: Key, flags: int, exptime: nat, data: string, g: Grants)
    returns (victim: Option<Addr>)
    requires Valid(s) && |data| >= 2 && !Usable(s.items, g.first)
    requires Slabs.ClassId(s.classes, Footprint(key, flags, |data|)) > 0
    ensures var c, (t, room) := Slabs.ClassId(s.classes, Footprint(key, flags, |data|)),
                                ItemCacheOps.Alloc(s, key, flags, exptime, data, g);
            && c < |s.lru| && (forall a :: a in s.lru[c] ==> a in s.items)
            && (!s.evictToFree ==> t == s && room == None)
            && (s.evictToFree ==>
                  && Nearest(s.items, s.lru[c], 50, victim)
                  && (victim.None? ==> View(t) == View(s))
                  && (victim.Some? ==> victim.value in s.items && View(t) == View(s) - {s.items[victim.value].key}))
            && (room.Some? ==> s.evictToFree && s.lru[c] != [] && room == g.second)
  {
    hide Core, LiveOk, View, Footprint, Slabs.ClassId, Place, Evicted, Nearest, EvictTarget, Usable;
    var c := Slabs.ClassId(s.classes, Footprint(key, flags, |data|));
    ClassBound(s, key, flags, data);
    victim := EvictTarget(s.items, s.lru[c], EVICT_TRIES);
    ListedIn(s, c);
    EvictNearest(s.items, s.lru[c], EVICT_TRIES);
    EvictedIs(s, c);
    if s.evictToFree && s.lru[c] != [] && Usable(Evicted(s, c).items, g.second) {
      UsableNew(Evicted(s, c), g.second);
      PlaceEffect(Evicted(s, c), g.second.value, key, flags, exptime, data, c, 0);
    }
    if s.lru[c] == [] {
      EvictEmpty(s.items);
    }
  }

  lemma UsableNew(s: Cache, g: Option<Addr>)
    requires Usable(s.items, g)
    ensures g.Some? && g.value !in s.items
  {
  }

  lemma EvictEmpty(items: map<Addr, Item>)
    ensures EvictTarget(items, [], EVICT_TRIES) == None
  {
  }

  lemma ListedIn(s: Cache, c: nat)
    requires Valid(s) && c < LARGEST_ID
    ensures |s.lru| == LARGEST_ID && forall a :: a in s.lru[c] ==> a in s.items && s.items[a].linked
  {
    hide TableOk, CountsOk, RefsOk, DeletedOk, SpareOk, TimeOk, CasOk, LiveOk, NoDup;
  }

  lemma EvictedIs(s: Cache, c: nat)
    requires Valid(s) && c < |s.lru|
    ensures var victim := EvictTarget(s.items, s.lru[c], EVICT_TRIES);
            && Valid(Evicted(s, c))
            && (victim.None? ==> Evicted(s, c) == s)
            && (victim.Some? ==>
                  victim.value in s.items && View(Evicted(s, c)) == View(s) - {s.items[victim.value].key})
  {
    LruLength(s);
    EvictedKeeps(s, c);
    hide Core, LiveOk, View, Unlink, EvictTarget, Shape, TableOk, CasOk;
    var victim := EvictTarget(s.items, s.lru[c], EVICT_TRIES);
    if victim.Some? {
      ListedIn(s, c);
      ValidParts(s);
      UnlinkView(s, victim.value);
    }
  }
}
