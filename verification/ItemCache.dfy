/** The item cache of memcached: chunks, hash table, LRU lists, reference counts and
    the deferred-delete list, as one value that the operations of items.c transform.

    The hash table appears as the map that module Assoc shows it to be, the LRU lists as
    the sequences that module Lru shows them to be.  `held` is specification state: it
    counts, per chunk, the references that callers obtained and have not yet given back. */
module ItemCache {
  import opened Seqs
  import Slabs

  type Addr = nat
  type Key = string

  const LARGEST_ID: nat := 255
  const ITEM_UPDATE_INTERVAL: nat := 60
  const ITEM_STRUCT_SIZE: nat := 56
  const WRAP32: nat := 0x1_0000_0000

  datatype Item = Item(
    key: Key, flags: int, data: string, time: nat, exptime: nat, refcount: nat,
    linked: bool, deleted: bool, clsid: nat, casId: nat,
    linkId: nat)  // specification only: the CAS id drawn when the item was last linked

  /** What a CAS id stood for at the moment it was drawn. */
  datatype Version = Version(key: Key, flags: int, data: string)

  datatype Cache = Cache(
    items: map<Addr, Item>,       // the chunks now handed out by the slab allocator
    table: map<Key, Addr>,        // assoc.c
    lru: seq<seq<Addr>>,          // per slab class, most recent first
    sizes: seq<int>,
    currItems: int,
    currBytes: int,
    spare: multiset<Addr>,        // chunks given back to the slab allocator
    todelete: seq<Addr>,
    held: multiset<Addr>,         // specification only
    now: nat,                     // current_time
    oldestLive: nat,              // settings.oldest_live
    casCounter: nat,
    versions: map<nat, Version>,  // specification only
    classes: seq<nat>,            // chunk size of each slab class
    evictToFree: bool)            // settings.evict_to_free

  // ---- sizes -------------------------------------------------------------------

  function Digits(n: nat): nat {
    if n < 10 then 1 else 1 + Digits(n / 10)
  }

  /** Length of " flags length\r\n", where length leaves out the trailing CRLF. */
  function SuffixLength(flags: int, nbytes: nat): nat {
    var shown := nbytes - 2;
    1 + (if flags < 0 then 1 + Digits(-flags) else Digits(flags))
    + 1 + (if shown < 0 then 1 + Digits(-shown) else Digits(shown)) + 2
  }

  function Footprint(key: Key, flags: int, nbytes: nat): nat {
    ITEM_STRUCT_SIZE + |key| + 1 + SuffixLength(flags, nbytes) + nbytes
  }

  function Total(it: Item): nat {
    Footprint(it.key, it.flags, |it.data|)
  }

  // ---- the steps every operation is made of ----------------------------------------

  // An address that is not a chunk in use, which no caller of these steps passes, changes
  // nothing; that spares every composition of steps a precondition.
  predicate InUse(s: Cache, a: Addr) {
    a in s.items && s.items[a].clsid < |s.lru| && s.items[a].clsid < |s.sizes|
  }

  /** item_free */
  function Free(s: Cache, a: Addr): Cache {
    s.(items := s.items - {a}, spare := s.spare + multiset{a})
  }

  /** do_item_link */
  function Link(s: Cache, a: Addr): Cache {
    if !InUse(s, a) then s else
    var id := s.casCounter + 1;
    var it := s.items[a].(linked := true, time := s.now, casId := id, linkId := id);
    s.(items := s.items[a := it],
       table := s.table[it.key := a],
       lru := s.lru[it.clsid := [a] + s.lru[it.clsid]],
       sizes := s.sizes[it.clsid := s.sizes[it.clsid] + 1],
       currItems := s.currItems + 1,
       currBytes := s.currBytes + Total(it),
       casCounter := id,
       versions := s.versions[id := Version(it.key, it.flags, it.data)])
  }

  /** The part of do_item_unlink before the reference count is looked at. */
  function Detach(s: Cache, a: Addr): Cache {
    if !InUse(s, a) then s else
    var it := s.items[a].(linked := false);
    s.(items := s.items[a := it],
       table := s.table - {it.key},
       lru := s.lru[it.clsid := Without(s.lru[it.clsid], a)],
       sizes := s.sizes[it.clsid := s.sizes[it.clsid] - 1],
       currItems := s.currItems - 1,
       currBytes := s.currBytes - Total(it))
  }

  /** do_item_unlink */
  function Unlink(s: Cache, a: Addr): Cache {
    if a !in s.items || !s.items[a].linked then s
    else if s.items[a].refcount == 0 then Free(Detach(s, a), a)
    else Detach(s, a)
  }

  /** A reference taken by item_get or item_get_nocheck. */
  function Take(s: Cache, a: Addr): Cache {
    if a !in s.items then s else
    s.(items := s.items[a := s.items[a].(refcount := s.items[a].refcount + 1)],
       held := s.held + multiset{a})
  }

  /** do_item_remove before it looks whether the chunk is to be freed. */
  function Drop(s: Cache, a: Addr): Cache {
    if a !in s.items then s else
    var it := s.items[a];
    s.(items := s.items[a := it.(refcount := if it.refcount != 0 then it.refcount - 1 else 0)],
       held := s.held - multiset{a})
  }

  /** do_item_remove */
  function Remove(s: Cache, a: Addr): Cache {
    var t := Drop(s, a);
    if a in t.items && t.items[a].refcount == 0 && !t.items[a].linked then Free(t, a) else t
  }

  /** The test of do_item_update, in 32-bit unsigned arithmetic. */
  predicate UpdateDue(time: nat, now: nat) {
    time < (now - ITEM_UPDATE_INTERVAL) % WRAP32
  }

  /** do_item_update */
  function Update(s: Cache, a: Addr): Cache {
    if !InUse(s, a) then s else
    var it := s.items[a];
    if UpdateDue(it.time, s.now) && it.linked then
      s.(items := s.items[a := it.(time := s.now)],
         lru := s.lru[it.clsid := [a] + Without(s.lru[it.clsid], a)])
    else s
  }

  // ---- the invariant ------------------------------------------------------------------

  /** Total size of the items on a list. */
  ghost function Bytes(items: map<Addr, Item>, list: seq<Addr>): int {
    if list == [] then 0
    else (if list[0] in items then Total(items[list[0]]) else 0) + Bytes(items, list[1..])
  }

  ghost function AllBytes(items: map<Addr, Item>, lru: seq<seq<Addr>>): int {
    if lru == [] then 0 else Bytes(items, lru[0]) + AllBytes(items, lru[1..])
  }

  /** Most recently used first. */
  ghost predicate NewestFirst(items: map<Addr, Item>, list: seq<Addr>) {
    list == [] ||
    ((forall b :: b in list[1..] && b in items && list[0] in items
        ==> items[list[0]].time >= items[b].time)
     && NewestFirst(items, list[1..]))
  }

  ghost predicate Shape(s: Cache) {
    |s.lru| == |s.sizes| == LARGEST_ID && |s.classes| <= LARGEST_ID
    && forall a :: a in s.items ==> s.items[a].clsid < LARGEST_ID && |s.items[a].data| >= 2
  }

  /** The hash table holds exactly the linked items, each under its own key. */
  ghost predicate TableOk(s: Cache) {
    (forall k :: k in s.table ==>
       s.table[k] in s.items && s.items[s.table[k]].linked && s.items[s.table[k]].key == k)
    && (forall a :: a in s.items && s.items[a].linked ==>
          s.items[a].key in s.table && s.table[s.items[a].key] == a)
  }

  /** The list of each class holds exactly the linked items of that class, once each. */
  ghost predicate LruOk(s: Cache)
    requires Shape(s)
  {
    (forall c :: 0 <= c < LARGEST_ID ==> NoDup(s.lru[c]))
    && (forall c, a :: 0 <= c < LARGEST_ID ==>
          (a in s.lru[c] <==> a in s.items && s.items[a].linked && s.items[a].clsid == c))
  }

  ghost predicate CountsOk(s: Cache)
    requires Shape(s)
  {
    (forall c :: 0 <= c < LARGEST_ID ==> s.sizes[c] == |s.lru[c]|)
    && s.currItems == |s.table|
    && s.currBytes == AllBytes(s.items, s.lru)
  }

  /** Every reference count is the references callers hold plus the todelete entries. */
  ghost predicate RefsOk(s: Cache) {
    (forall a :: a in s.items ==> s.items[a].refcount == s.held[a] + multiset(s.todelete)[a])
    && (forall a :: a in s.held ==> a in s.items)
    && (forall a :: a in s.todelete ==> a in s.items)
  }

  /** A chunk that is neither linked nor referenced has gone back to the slab. */
  ghost predicate LiveOk(s: Cache) {
    forall a :: a in s.items ==> s.items[a].linked || s.items[a].refcount > 0
  }

  /** A flagged item waits on todelete, perhaps more than once; one that waits there is flagged, or its time
      has come. */
  ghost predicate DeletedOk(s: Cache) {
    forall a :: a in s.items ==>
      && (s.items[a].deleted ==> a in s.todelete)
      && (a in s.todelete ==> s.items[a].deleted || s.items[a].exptime <= s.now)
  }

  /** A chunk is spare at most once, and never while it is in use. */
  ghost predicate SpareOk(s: Cache) {
    forall a :: s.spare[a] <= 1 && (a in s.items ==> s.spare[a] == 0)
  }

  ghost predicate TimeOk(s: Cache)
    requires Shape(s)
  {
    (forall a :: a in s.items && s.items[a].linked ==> s.items[a].time <= s.now)
    && (forall c :: 0 <= c < LARGEST_ID ==> NewestFirst(s.items, s.lru[c]))
  }

  /** CAS ids of linked items are distinct and name the contents they were drawn for. */
  ghost predicate CasOk(s: Cache) {
    (forall a :: a in s.items && s.items[a].linked ==>
       0 < s.items[a].linkId <= s.items[a].casId <= s.casCounter
       && s.items[a].casId in s.versions
       && s.versions[s.items[a].casId] == Version(s.items[a].key, s.items[a].flags, s.items[a].data))
    && (forall a, b :: a in s.items && b in s.items && s.items[a].linked && s.items[b].linked && a != b
          ==> s.items[a].casId != s.items[b].casId)
    && (forall v :: v in s.versions ==> v <= s.casCounter)
  }

  ghost predicate Core(s: Cache) {
    Shape(s) && TableOk(s) && LruOk(s) && CountsOk(s) && RefsOk(s) && DeletedOk(s)
    && SpareOk(s) && TimeOk(s) && CasOk(s)
  }

  ghost predicate Valid(s: Cache) {
    Core(s) && LiveOk(s)
  }
}
