/** items.c and the cache commands of memcached.c over variables that change in place.
    Every method computes the operation of the same name on the value `State()`. */
module ItemStore {
  import opened Seqs
  import opened ItemCache
  import opened ItemCacheOps
  import opened ItemCacheStore
  import opened ItemCacheRun
  import opened ItemCacheSteps
  import opened ItemCacheView
  import opened ItemCacheStoreProof
  import Slabs

  class Store {
    var items: map<Addr, Item>
    var table: map<Key, Addr>
    var lru: seq<seq<Addr>>
    var sizes: seq<int>
    var currItems: int
    var currBytes: int
    var todelete: seq<Addr>     // the first delcurr entries are in use
    var delcurr: nat
    var now: nat
    var oldestLive: nat
    var casCounter: nat
    var classes: seq<nat>
    var evictToFree: bool
    ghost var spare: multiset<Addr>
    ghost var held: multiset<Addr>
    ghost var versions: map<nat, Version>

    ghost predicate Valid()
      reads this
    {
      delcurr <= |todelete| && |lru| == |sizes| == LARGEST_ID
      && forall a :: a in items ==> items[a].clsid < LARGEST_ID
    }

    ghost function State(): Cache
      requires delcurr <= |todelete|
      reads this
    {
      Cache(items, table, lru, sizes, currItems, currBytes, spare, todelete[..delcurr], held, now, oldestLive,
            casCounter, versions, classes, evictToFree)
    }

    method ItemFree(a: Addr)
      requires Valid() && a in items
      modifies this`items, this`spare
      ensures Valid() && State() == Free(old(State()), a)
    {
      items := items - {a};
      spare := spare + multiset{a};
    }

    method ItemLinkQ(a: Addr)
      requires Valid() && a in items
      modifies this`lru, this`sizes
      ensures Valid()
      ensures var c := items[a].clsid;
        lru == old(lru)[c := [a] + old(lru)[c]] && sizes == old(sizes)[c := old(sizes)[c] + 1]
    {
      var c := items[a].clsid;
      lru := lru[c := [a] + lru[c]];
      sizes := sizes[c := sizes[c] + 1];
    }

    method ItemUnlinkQ(a: Addr)
      requires Valid() && a in items
      modifies this`lru, this`sizes
      ensures Valid()
      ensures var c := items[a].clsid;
        lru == old(lru)[c := Without(old(lru)[c], a)] && sizes == old(sizes)[c := old(sizes)[c] - 1]
    {
      var c := items[a].clsid;
      lru := lru[c := Without(lru[c], a)];
      sizes := sizes[c := sizes[c] - 1];
    }

    method DoItemLink(a: Addr)
      requires Valid() && a in items
      modifies this
      ensures Valid() && State() == Link(old(State()), a)
    {
      hide Footprint;
      var it := items[a].(linked := true, time := now);
      table := table[it.key := a];
      currBytes := currBytes + Total(it);
      currItems := currItems + 1;
      casCounter := casCounter + 1;
      it := it.(casId := casCounter, linkId := casCounter);
      items := items[a := it];
      versions := versions[casCounter := Version(it.key, it.flags, it.data)];
      ItemLinkQ(a);
    }

    method DoItemUnlink(a: Addr)
      requires Valid() && a in items
      modifies this`items, this`table, this`lru, this`sizes, this`currItems, this`currBytes, this`spare
      ensures Valid() && State() == Unlink(old(State()), a)
    {
      hide Total;
      if items[a].linked {
        items := items[a := items[a].(linked := false)];
        currBytes := currBytes - Total(items[a]);
        currItems := currItems - 1;
        table := table - {items[a].key};
        ItemUnlinkQ(a);
        assert State() == Detach(old(State()), a);
        if items[a].refcount == 0 {
          ItemFree(a);
        }
      }
    }

    method DoItemRemove(a: Addr)
      requires Valid() && a in items
      modifies this`items, this`held, this`spare
      ensures Valid() && State() == Remove(old(State()), a)
    {
      hide Free, Drop;
      DropReference(a);
      if items[a].refcount == 0 && !items[a].linked {
        ItemFree(a);
      }
    }

    method DropReference(a: Addr)
      requires Valid() && a in items
      modifies this`items, this`held
      ensures Valid() && a in items && State() == Drop(old(State()), a)
    {
      if items[a].refcount != 0 {
        items := items[a := items[a].(refcount := items[a].refcount - 1)];
      }
      held := held - multiset{a};
    }

    method DoItemUpdate(a: Addr)
      requires Valid() && a in items && |sizes| == |lru|
      modifies this
      ensures Valid() && State() == Update(old(State()), a)
    {
      if UpdateDue(items[a].time, now) {
        if items[a].linked {
          ItemUnlinkQ(a);
          items := items[a := items[a].(time := now)];
          ItemLinkQ(a);
        }
      }
    }

    method DoItemReplace(was: Addr, it: Addr)
      requires Valid() && was in items && it in items && was != it
      modifies this
      ensures Valid() && State() == Supplant(old(State()), was, it)
    {
      DoItemUnlink(was);
      DoItemLink(it);
    }

    method DoItemGetNotedeleted(key: Key) returns (found: Option<Addr>, locked: bool)
      requires Valid() && forall k :: k in table ==> table[k] in items
      modifies this
      ensures Valid() && Lookup(State(), found, locked) == Get(old(State()), key)
    {
      found, locked := None, false;
      if key in table {
        found := Some(table[key]);
      }
      if found.Some? && items[found.value].deleted {
        if now < items[found.value].exptime {
          locked := true;
          found := None;
        }
      }
      if found.Some? && oldestLive != 0 && oldestLive <= now && items[found.value].time <= oldestLive {
        DoItemUnlink(found.value);
        found := None;
      }
      if found.Some? && items[found.value].exptime != 0 && items[found.value].exptime <= now {
        DoItemUnlink(found.value);
        found := None;
      }
      if found.Some? {
        items := items[found.value := items[found.value].(refcount := items[found.value].refcount + 1)];
        held := held + multiset{found.value};
      }
    }

    /** The search from the tail for something to evict, at most fifty steps. */
    method EvictSearch(id: nat) returns (victim: Option<Addr>)
      requires Valid() && id < LARGEST_ID && forall a :: a in lru[id] ==> a in items
      ensures victim == EvictTarget(items, lru[id], EVICT_TRIES)
    {
      var tries := EVICT_TRIES;
      var i := |lru[id]|;
      assert lru[id][..i] == lru[id];
      while tries > 0 && i > 0
        invariant 0 <= tries <= EVICT_TRIES && 0 <= i <= |lru[id]|
        invariant EvictTarget(items, lru[id][..i], tries) == EvictTarget(items, lru[id], EVICT_TRIES)
      {
        var search := lru[id][i - 1];
        assert lru[id][..i][..i - 1] == lru[id][..i - 1];
        if items[search].refcount == 0 {
          return Some(search);
        }
        i := i - 1;
        tries := tries - 1;
      }
      victim := None;
    }

    /** grants: what the slab allocator answers to the two requests. */
    method DoItemAlloc(key: Key, flags: int, exptime: nat, data: string, g: Grants) returns (room: Option<Addr>)
      requires Valid() && |classes| <= LARGEST_ID
      requires forall c, a :: 0 <= c < LARGEST_ID && a in lru[c] ==> a in items
      modifies this
      ensures delcurr <= |todelete| && (State(), room) == ItemCacheOps.Alloc(old(State()), key, flags, exptime, data, g)
    {
      var id := Slabs.ClassId(classes, Footprint(key, flags, |data|));
      if id == 0 {
        return None;
      }
      var granted := if Usable(items, g.first) then g.first else None;
      if granted.None? {
        if !evictToFree || lru[id] == [] {
          return None;
        }
        var victim := EvictSearch(id);
        if victim.Some? {
          DoItemUnlink(victim.value);
        }
        granted := if Usable(items, g.second) then g.second else None;
        if granted.None? {
          return None;
        }
      }
      var a := granted.value;
      items := items[a := Item(key, flags, data, 0, exptime, 1, false, false, id, 0, 0)];
      spare := spare[a := 0];
      held := held + multiset{a};
      room := granted;
    }

    /** do_item_flush_expired, one list: the next item is read before this one is unlinked. */
    method FlushList(c: nat)
      requires Valid() && c < LARGEST_ID && NoDup(lru[c]) && forall a :: a in lru[c] ==> a in items
      modifies this
      ensures Valid() && State() == FlushWalk(old(State()), old(lru[c]))
    {
      ghost var start := State();
      ghost var whole := lru[c];
      var rest := lru[c];
      while rest != [] && items[rest[0]].time >= oldestLive
        invariant Valid() && NoDup(rest) && forall a :: a in rest ==> a in items
        invariant FlushWalk(State(), rest) == FlushWalk(start, whole)
        decreases |rest|
      {
        hide FlushWalk, Unlink, NoDup;
        FlushStep(State(), rest);
        var a, next := rest[0], rest[1..];
        DoItemUnlink(a);
        rest := next;
      }
    }

    /** do_item_flush_expired */
    method DoItemFlushExpired()
      requires Valid() && ItemCache.Valid(State())
      modifies this
      ensures Valid() && ItemCache.Valid(State())
      ensures State() == (if old(oldestLive) == 0 then old(State()) else FlushFrom(old(State()), 0))
    {
      if oldestLive == 0 {
        return;
      }
      ghost var start := State();
      var c := 0;
      while c < LARGEST_ID
        invariant 0 <= c <= LARGEST_ID && Valid() && ItemCache.Valid(State())
        invariant FlushFrom(State(), c) == FlushFrom(start, 0)
      {
        hide ItemCache.Valid, FlushWalk;
        FlushWalkClears(State(), c);
        ListOk(State(), c);
        FlushList(c);
        c := c + 1;
      }
    }

    /** do_defer_delete; the space for todelete doubles if it has to and realloc grants it. */
    method DoDeferDelete(it: Addr, delay: int, started: nat, granted: bool) returns (ok: bool)
      requires Valid() && it in items && |todelete| > 0
      modifies this
      ensures Valid() && ok == (old(delcurr) < old(|todelete|) || granted)
      ensures State() == if ok then Defer(old(State()), it, Realtime(delay, started, old(now)))
                         else Remove(old(State()), it)
    {
      hide Remove, Realtime;
      ghost var queue := todelete[..delcurr];
      if delcurr >= |todelete| {
        if !granted {
          DoItemRemove(it);
          return false;
        }
        todelete := todelete + seq(|todelete|, _ => 0);
      }
      items := items[it := items[it].(exptime := Realtime(delay, started, now), deleted := true)];
      todelete := todelete[delcurr := it];
      delcurr := delcurr + 1;
      held := held - multiset{it};
      assert todelete[..delcurr] == queue + [it];
      ok := true;
    }

    /** The state while do_run_deferred_deletes is between entries: j kept, i looked at. */
    ghost function Pending(j: nat, i: nat, end: nat): Cache
      requires j <= i <= end == delcurr <= |todelete|
      reads this
    {
      State().(todelete := todelete[..j] + todelete[i..end])
    }

    /** An entry whose time has come: its item loses the flag, and the entry its reference. */
    method Unqueue(j: nat, i: nat, end: nat)
      requires j <= i < end == delcurr <= |todelete| && Valid() && todelete[i] in items
      modifies this`items, this`held
      ensures Valid() && items.Keys == old(items.Keys)
      ensures Pending(j, i + 1, end) == Unqueued(old(Pending(j, i, end)), j)
    {
      var it := todelete[i];
      ghost var queue := todelete[..j] + todelete[i..end];
      assert queue[j] == it && Omit(queue, j) == todelete[..j] + todelete[i + 1..end];
      items := items[it := items[it].(deleted := false)];
      held := held + multiset{it};
    }

    /** Its item is unlinked and the reference given back. */
    method Reap(a: Addr, j: nat, i: nat, end: nat)
      requires j <= i <= end == delcurr <= |todelete| && Valid()
      requires a in items && a in Unlink(Pending(j, i, end), a).items
      modifies this`items, this`table, this`lru, this`sizes, this`currItems, this`currBytes, this`spare, this`held
      ensures Valid()
      ensures Pending(j, i, end) == Remove(Unlink(old(Pending(j, i, end)), a), a)
    {
      hide Unlink, Remove;
      ghost var queue := todelete[..j] + todelete[i..end];
      UnlinkQueue(State(), a, queue);
      DoItemUnlink(a);
      RemoveQueue(State(), a, queue);
      DoItemRemove(a);
    }

    method ReclaimEntry(j: nat, i: nat, end: nat)
      requires j <= i < end == delcurr <= |todelete| && Valid() && todelete[i] in items
      requires ItemCache.Valid(Pending(j, i, end)) && items[todelete[i]].exptime <= now
      modifies this`items, this`table, this`lru, this`sizes, this`currItems, this`currBytes, this`spare, this`held
      ensures Valid()
      ensures Pending(j, i + 1, end) == Reclaim(old(Pending(j, i, end)), j)
    {
      hide ItemCache.Valid, Unlink, Remove, Unqueued;
      var a := todelete[i];
      ghost var before := Pending(j, i, end);
      assert before.todelete[j] == a;
      ReclaimInUse(before, j);
      Unqueue(j, i, end);
      Reap(a, j, i + 1, end);
    }

    /** An entry that is not yet due moves down. */
    method KeepEntry(j: nat, i: nat, end: nat)
      requires j <= i < end == delcurr <= |todelete|
      modifies this`todelete
      ensures |todelete| == old(|todelete|) && Pending(j + 1, i + 1, end) == old(Pending(j, i, end))
    {
      ghost var queue := todelete[..j] + todelete[i..end];
      todelete := todelete[j := todelete[i]];
      assert todelete[..j + 1] + todelete[i + 1..end] == queue;
    }

    /** do_run_deferred_deletes: what is not yet due moves down to the front of todelete. */
    method DoRunDeferredDeletes()
      requires Valid() && ItemCache.Valid(State())
      modifies this
      ensures Valid() && State() == ReapFrom(old(State()), 0)
    {
      hide ItemCache.Valid, ReapFrom;
      ghost var start := State();
      var i, j, end := 0, 0, delcurr;
      assert todelete[..0] + todelete[0..end] == todelete[..end];
      while i < end
        invariant 0 <= j <= i <= end == delcurr <= |todelete| && Valid()
        invariant ItemCache.Valid(Pending(j, i, end))
        invariant ReapFrom(Pending(j, i, end), j) == ReapFrom(start, 0)
      {
        j := ReapEntry(j, i, end);
        i := i + 1;
      }
      ReapDone(Pending(j, i, end));
      assert todelete[..j] + todelete[i..end] == todelete[..j];
      delcurr := j;
    }

    method ReapEntry(j: nat, i: nat, end: nat) returns (k: nat)
      requires j <= i < end == delcurr <= |todelete| && Valid()
      requires ItemCache.Valid(Pending(j, i, end))
      modifies this`items, this`table, this`lru, this`sizes, this`currItems, this`currBytes, this`spare, this`held,
               this`todelete
      ensures k <= i + 1 && end <= |todelete| && Valid()
      ensures ItemCache.Valid(Pending(k, i + 1, end))
      ensures ReapFrom(Pending(k, i + 1, end), k) == old(ReapFrom(Pending(j, i, end), j))
    {
      hide ItemCache.Valid, Reclaim, ReapFrom;
      ReapNext(Pending(j, i, end), j);
      assert Pending(j, i, end).todelete[j] == todelete[i];
      if items[todelete[i]].exptime <= now {
        ReclaimEntry(j, i, end);
        k := j;
      } else {
        KeepEntry(j, i, end);
        k := j + 1;
      }
    }

    method DoItemGetNocheck(key: Key) returns (found: Option<Addr>)
      requires Valid() && forall k :: k in table ==> table[k] in items
      modifies this`items, this`held
      ensures Valid() && Lookup(State(), found, false) == GetNoCheck(old(State()), key)
    {
      found := None;
      if key in table {
        found := Some(table[key]);
        items := items[found.value := items[found.value].(refcount := items[found.value].refcount + 1)];
        held := held + multiset{found.value};
      }
    }

    /** Link `it`, in place of the item found if there is one, whose reference goes back:
        the common end of do_store_item. */
    method LinkOver(found: Option<Addr>, it: Addr)
      requires Valid() && ItemCache.Valid(State()) && it in items && !items[it].linked
      requires found.Some? ==> Holding(State(), items[it].key, found.value)
      modifies this
      ensures Valid() && it in items
      ensures State() == (if found.Some? then PutOver(old(State()), found.value, it) else Link(old(State()), it))
    {
      hide ItemCache.Valid, Unlink, Link, Remove, View;
      if found.Some? {
        SupplantLeaves(State(), items[it].key, found.value, it);
        DoItemReplace(found.value, it);
        DoItemRemove(found.value);
      } else {
        LinkLeaves(State(), it);
        DoItemLink(it);
      }
    }

    method DoStoreItem(it: Addr, comm: Command, g: Grants) returns (out: Outcome)
      requires Valid() && ItemCache.Valid(State()) && it in items && !items[it].linked
      modifies this
      ensures delcurr <= |todelete| && (State(), out) == ItemCacheStore.Store(old(State()), it, comm, g)
    {
      hide ItemCache.Valid, Unlink, Link, Remove, View, Update, Get, GetNoCheck, PutOver, ItemCacheOps.Alloc;
      hide Holding, History, Pruned;
      ghost var start := State();
      var key := items[it].key;
      TableInUse(start);
      GetEffect(start, key);
      GetLeaves(start, key, it);
      var found, locked := DoItemGetNotedeleted(key);
      ghost var t := State();
      if found.Some? {
        HoldingEntry(t, key, found.value);
      }
      if found.Some? && comm == Add {
        UpdateHolds(t, found.value);
        DoItemUpdate(found.value);
        DoItemRemove(found.value);
        out := NotStored;
      } else if found.None? && (comm == Replace || comm == Append || comm == Prepend) {
        out := NotStored;
      } else if locked && (comm == Replace || comm == Add || comm == Append || comm == Prepend) {
        out := NotStored;
      } else if comm == Append || comm == Prepend {
        out := StoreJoinedItem(found.value, it, comm, g);
      } else {
        if locked {
          TableInUse(t);
          LockedEffect(t, key, it);
          found := DoItemGetNocheck(key);
          if found.Some? {
            HoldingEntry(State(), key, found.value);
          }
        }
        if comm == Cas && found.None? {
          out := NotFound;
        } else if comm == Cas && items[it].casId != items[found.value].casId {
          DoItemRemove(found.value);
          out := Exists;
        } else {
          LinkOver(found, it);
          out := Stored;
        }
      }
    }

    /** append and prepend in do_store_item. */
    method StoreJoinedItem(was: Addr, it: Addr, comm: Command, g: Grants) returns (out: Outcome)
      requires Valid() && ItemCache.Valid(State()) && it in items && Holding(State(), items[it].key, was)
      modifies this
      ensures delcurr <= |todelete| && (State(), out) == StoreJoined(old(State()), was, it, comm, g)
    {
      hide ItemCache.Valid, Unlink, Link, Remove, View, PutOver, ItemCacheOps.Alloc, NewChunk;
      ghost var start := State();
      var key, o := items[it].key, items[was];
      var data := Joined(comm, o.data, items[it].data);
      DataLength(start, was);
      DataLength(start, it);
      ListsInUse(start);
      ghost var lost := JoinAlloc(start, key, was, data, g);
      AllocShape(start, key, o.flags, o.exptime, data, g);
      var room := DoItemAlloc(key, o.flags, o.exptime, data, g);
      if room.None? {
        DoItemRemove(was);
        out := NotStored;
      } else {
        NewChunkIs(State(), room.value, key, o.flags, o.exptime, data);
        LinkOver(Some(was), room.value);
        DoItemRemove(room.value);
        out := Stored;
      }
    }
  }

  lemma TableInUse(s: Cache)
    requires ItemCache.Valid(s)
    ensures forall k :: k in s.table ==> s.table[k] in s.items
    ensures |s.lru| == |s.sizes| == LARGEST_ID
  {
    hide LruOk, CountsOk, RefsOk, DeletedOk, SpareOk, TimeOk, CasOk, LiveOk;
  }

  lemma GetLeaves(s: Cache, key: Key, it: Addr)
    requires ItemCache.Valid(s) && it in s.items && !s.items[it].linked
    ensures var t := Get(s, key).cache; it in t.items && t.items[it] == s.items[it]
  {
    hide Shape, TableOk, CasOk, Get;
    CoreParts(s);
    GetOther(s, key, it);
  }

  lemma ListsInUse(s: Cache)
    requires ItemCache.Valid(s)
    ensures |s.lru| == LARGEST_ID && |s.classes| <= LARGEST_ID
    ensures forall c, a :: 0 <= c < LARGEST_ID && a in s.lru[c] ==> a in s.items
  {
    hide TableOk, CountsOk, RefsOk, DeletedOk, SpareOk, TimeOk, CasOk, LiveOk, NoDup;
  }

  lemma NewChunkIs(t: Cache, n: Addr, key: Key, flags: int, exptime: nat, data: string)
    requires NewChunk(t, n, key, flags, exptime, data)
    ensures n in t.items && !t.items[n].linked && t.items[n].key == key
  {
  }

  lemma AllocShape(s: Cache, key: Key, flags: int, exptime: nat, data: string, g: Grants)
    requires ItemCache.Valid(s) && |data| >= 2
    ensures Shape(ItemCacheOps.Alloc(s, key, flags, exptime, data, g).0)
  {
    hide Shape, TableOk, LruOk, CountsOk, RefsOk, DeletedOk, SpareOk, TimeOk, CasOk, LiveOk, ItemCacheOps.Alloc;
    AllocKeeps(s, key, flags, exptime, data, g);
  }

  lemma SupplantLeaves(s: Cache, key: Key, was: Addr, it: Addr)
    requires ItemCache.Valid(s) && Holding(s, key, was)
    requires it in s.items && !s.items[it].linked && s.items[it].key == key
    ensures was != it && was in Supplant(s, was, it).items && it in PutOver(s, was, it).items
  {
    hide ItemCache.Valid, Unlink, Link, Remove, View, History;
    UnlinkEffect(s, key, was, it);
    LinkEffect(Unlink(s, was), it, was);
    PutOverEffect(s, key, was, it);
  }

  lemma LinkLeaves(s: Cache, it: Addr)
    requires it in s.items
    ensures it in Link(s, it).items
  {
  }

  /** The walk of a flush goes on with the rest of the list, whose items are still there. */
  lemma FlushStep(s: Cache, list: seq<Addr>)
    requires list != [] && NoDup(list) && forall a :: a in list ==> a in s.items
    requires s.items[list[0]].time >= s.oldestLive
    ensures var t := Unlink(s, list[0]);
      && FlushWalk(s, list) == FlushWalk(t, list[1..])
      && NoDup(list[1..]) && forall a :: a in list[1..] ==> a in t.items
  {
    UnlinkOthersStay(s, list[0]);
    hide Unlink;
  }

  lemma UnlinkOthersStay(s: Cache, a: Addr)
    ensures forall b :: b in s.items && b != a ==> b in Unlink(s, a).items
  {
  }

  lemma ReapDone(s: Cache)
    ensures ReapFrom(s, |s.todelete|) == s
  {
  }

  lemma ReclaimInUse(s: Cache, j: nat)
    requires ItemCache.Valid(s) && j < |s.todelete| && Due(s, j)
    ensures var a := s.todelete[j]; var t := Unqueued(s, j); a in t.items && a in Unlink(t, a).items
  {
    hide ItemCache.Valid, Unqueued, Unlink, Due;
    UnqueuedKeeps(s, j);
    HeldCounted(Unqueued(s, j), s.todelete[j]);
    UnlinkStep(Unqueued(s, j), s.todelete[j]);
  }

  /** The next entry of a reaping run. */
  lemma ReapNext(s: Cache, j: nat)
    requires ItemCache.Valid(s) && j < |s.todelete|
    ensures var a := s.todelete[j];
      && a in s.items
      && (if s.items[a].exptime <= s.now
          then ItemCache.Valid(Reclaim(s, j)) && j <= |Reclaim(s, j).todelete|
               && ReapFrom(s, j) == ReapFrom(Reclaim(s, j), j)
          else ReapFrom(s, j) == ReapFrom(s, j + 1))
  {
    hide ItemCache.Valid, Reclaim;
    QueuedInUse(s, j);
    if s.items[s.todelete[j]].exptime <= s.now {
      ReclaimKeeps(s, j);
      ReclaimLength(s, j);
    }
  }

  lemma ListOk(s: Cache, c: nat)
    requires ItemCache.Valid(s) && c < LARGEST_ID
    ensures |s.lru| == LARGEST_ID && NoDup(s.lru[c]) && forall a :: a in s.lru[c] ==> a in s.items
  {
    hide TableOk, CountsOk, RefsOk, DeletedOk, SpareOk, TimeOk, CasOk, LiveOk, NoDup;
  }

  lemma QueuedInUse(s: Cache, j: nat)
    requires ItemCache.Valid(s) && j < |s.todelete|
    ensures s.todelete[j] in s.items
  {
    hide Shape, TableOk, LruOk, CountsOk, DeletedOk, SpareOk, TimeOk, CasOk, LiveOk;
    assert s.todelete[j] in s.todelete;
  }

  lemma UnlinkQueue(s: Cache, a: Addr, queue: seq<Addr>)
    ensures Unlink(s.(todelete := queue), a) == Unlink(s, a).(todelete := queue)
  {
    hide Total, Without;
    var t := s.(todelete := queue);
    assert Detach(t, a) == Detach(s, a).(todelete := queue);
    hide Detach;
  }

  lemma RemoveQueue(s: Cache, a: Addr, queue: seq<Addr>)
    ensures Remove(s.(todelete := queue), a) == Remove(s, a).(todelete := queue)
  {
    assert Drop(s.(todelete := queue), a) == Drop(s, a).(todelete := queue);
    hide Drop;
  }
}
