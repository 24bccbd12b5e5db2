/** The operations of items.c and the cache commands of memcached.c, composed from the
    steps of module ItemCache. */
module ItemCacheOps {
  import opened Seqs
  import opened ItemCache
  import opened ItemCacheSteps
  import Slabs

  const EVICT_TRIES: nat := 50

  /** What the slab allocator answers to the two requests of one do_item_alloc call.
      It never grants a chunk that is in use. */
  datatype Grants = Grants(first: Option<Addr>, second: Option<Addr>)

  predicate Usable(items: map<Addr, Item>, g: Option<Addr>) {
    g.Some? && g.value !in items
  }

  // ---- do_item_alloc -------------------------------------------------------------------

  /** The chunk the eviction search picks: the unreferenced one nearest to the tail, if it
      is among the last `tries`. */
  function EvictTarget(items: map<Addr, Item>, list: seq<Addr>, tries: nat): (r: Option<Addr>)
    ensures r.Some? ==> r.value in list && r.value in items && items[r.value].refcount == 0
    decreases tries
  {
    if list == [] || tries == 0 then None
    else
      var tail := list[|list| - 1];
      if tail in items && items[tail].refcount == 0 then Some(tail)
      else EvictTarget(items, list[..|list| - 1], tries - 1)
  }

  function Place(s: Cache, a: Addr, key: Key, flags: int, exptime: nat, data: string, id: nat): Cache {
    s.(items := s.items[a := Item(key, flags, data, 0, exptime, 1, false, false, id, 0, 0)],
       spare := s.spare[a := 0],
       held := s.held + multiset{a})
  }

  /** The cache after do_item_alloc made room in class id. */
  function Evicted(s: Cache, id: nat): Cache {
    if id >= |s.lru| then s else
    var victim := EvictTarget(s.items, s.lru[id], EVICT_TRIES);
    if victim.Some? then Unlink(s, victim.value) else s
  }

  function Alloc(s: Cache, key: Key, flags: int, exptime: nat, data: string, g: Grants): (r: (Cache, Option<Addr>)) {
    var id := Slabs.ClassId(s.classes, Footprint(key, flags, |data|));
    if id == 0 || id >= |s.lru| then (s, None)
    else if Usable(s.items, g.first) then
      (Place(s, g.first.value, key, flags, exptime, data, id), g.first)
    else if !s.evictToFree || s.lru[id] == [] then (s, None)
    else
      var t := Evicted(s, id);
      if Usable(t.items, g.second) then
        (Place(t, g.second.value, key, flags, exptime, data, id), g.second)
      else (t, None)
  }

  lemma PlaceKeeps(s: Cache, a: Addr, key: Key, flags: int, exptime: nat, data: string, id: nat)
    requires Valid(s) && a !in s.items && id < LARGEST_ID && |data| >= 2
    ensures Valid(Place(s, a, key, flags, exptime, data, id))
  {
    hide Shape, TableOk, LruOk, CountsOk, RefsOk, DeletedOk, SpareOk, TimeOk, CasOk, LiveOk, Alike;
    PlaceRefs(s, a, key, flags, exptime, data, id);
    PlaceRest(s, a, key, flags, exptime, data, id);
    AlikeKeeps(s, Place(s, a, key, flags, exptime, data, id));
  }

  lemma PlaceRefs(s: Cache, a: Addr, key: Key, flags: int, exptime: nat, data: string, id: nat)
    requires RefsOk(s) && DeletedOk(s) && a !in s.items
    ensures var t := Place(s, a, key, flags, exptime, data, id); RefsOk(t) && DeletedOk(t)
  {
    assert a !in s.held;
    assert a !in multiset(s.todelete);
  }

  lemma PlaceRest(s: Cache, a: Addr, key: Key, flags: int, exptime: nat, data: string, id: nat)
    requires Shape(s) && SpareOk(s) && LiveOk(s) && a !in s.items && id < LARGEST_ID && |data| >= 2
    ensures var t := Place(s, a, key, flags, exptime, data, id);
      Shape(t) && SpareOk(t) && LiveOk(t) && Alike(s.items, t.items)
  {
  }

  lemma EvictedKeeps(s: Cache, id: nat)
    requires Valid(s) && id < LARGEST_ID
    ensures Valid(Evicted(s, id))
  {
    hide TableOk, LruOk, CountsOk, RefsOk, DeletedOk, SpareOk, TimeOk, CasOk, LiveOk, Unlink;
    var victim := EvictTarget(s.items, s.lru[id], EVICT_TRIES);
    if victim.Some? {
      UnlinkKeeps(s, victim.value);
    }
  }

  lemma AllocKeeps(s: Cache, key: Key, flags: int, exptime: nat, data: string, g: Grants)
    requires Valid(s) && |data| >= 2
    ensures Valid(Alloc(s, key, flags, exptime, data, g).0)
  {
    hide TableOk, LruOk, CountsOk, RefsOk, DeletedOk, SpareOk, TimeOk, CasOk, LiveOk, Place, Evicted;
    var id := Slabs.ClassId(s.classes, Footprint(key, flags, |data|));
    if id != 0 {
      EvictedKeeps(s, id);
      if Usable(s.items, g.first) {
        PlaceKeeps(s, g.first.value, key, flags, exptime, data, id);
      } else if Usable(Evicted(s, id).items, g.second) {
        PlaceKeeps(Evicted(s, id), g.second.value, key, flags, exptime, data, id);
      }
    }
  }

  // ---- lookups -------------------------------------------------------------------------

  datatype Lookup = Lookup(cache: Cache, found: Option<Addr>, locked: bool)

  /** Hidden by flush_all: settings.oldest_live has come and the item is not newer. */
  predicate Flushed(s: Cache, it: Item) {
    s.oldestLive != 0 && s.oldestLive <= s.now && it.time <= s.oldestLive
  }

  predicate Expired(s: Cache, it: Item) {
    it.exptime != 0 && it.exptime <= s.now
  }

  /** Under a pending deferred delete. */
  predicate Locked(s: Cache, it: Item) {
    it.deleted && s.now < it.exptime
  }

  /** do_item_get_notedeleted */
  function Get(s: Cache, key: Key): Lookup {
    if key !in s.table || s.table[key] !in s.items then Lookup(s, None, false)
    else
      var a := s.table[key];
      var it := s.items[a];
      if Locked(s, it) then Lookup(s, None, true)
      else if Flushed(s, it) || Expired(s, it) then Lookup(Unlink(s, a), None, false)
      else Lookup(Take(s, a), Some(a), false)
  }

  /** do_item_get_nocheck */
  function GetNoCheck(s: Cache, key: Key): Lookup {
    if key !in s.table then Lookup(s, None, false)
    else Lookup(Take(s, s.table[key]), Some(s.table[key]), false)
  }

  lemma GetKeeps(s: Cache, key: Key)
    requires Valid(s)
    ensures Valid(Get(s, key).cache)
  {
    hide LruOk, CountsOk, RefsOk, DeletedOk, SpareOk, TimeOk, CasOk, LiveOk, Unlink, Take;
    if key in s.table {
      UnlinkKeeps(s, s.table[key]);
      TakeKeeps(s, s.table[key]);
    }
  }

  // ---- do_item_replace -----------------------------------------------------------------

  function Supplant(s: Cache, was: Addr, it: Addr): Cache {
    Link(Unlink(s, was), it)
  }
}
