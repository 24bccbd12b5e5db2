/** do_store_item, and what it leaves behind. */
module ItemCacheStore {
  import opened Seqs
  import opened ItemCache
  import opened ItemCacheSteps
  import opened ItemCacheOps

  datatype Command = Add | Set | Replace | Append | Prepend | Cas

  datatype Outcome = NotStored | Stored | Exists | NotFound

  function Joined(comm: Command, was: string, more: string): string {
    if comm == Append then Chopped(was) + more else Chopped(more) + was
  }

  /** A value without its CRLF. */
  function Chopped(data: string): string {
    if |data| < 2 then [] else data[..|data| - 2]
  }

  /** Make `it` the item of its key, in place of `was`, on which we hold a reference. */
  function PutOver(s: Cache, was: Addr, it: Addr): Cache {
    Remove(Supplant(s, was, it), was)
  }

  /** Allocate the joined value of append or prepend, and store it over `was`. */
  function StoreJoined(s: Cache, was: Addr, it: Addr, comm: Command, g: Grants): (r: (Cache, Outcome))
    requires was in s.items && it in s.items
  {
    var old_it := s.items[was];
    var data := Joined(comm, old_it.data, s.items[it].data);
    var (t, room) := Alloc(s, s.items[it].key, old_it.flags, old_it.exptime, data, g);
    match room
    case None => (Remove(t, was), NotStored)
    case Some(n) => (Remove(PutOver(t, was, n), n), Stored)
  }

  /** do_store_item */
  function Store(s: Cache, it: Addr, comm: Command, g: Grants): (r: (Cache, Outcome))
    requires it in s.items
  {
    var key := s.items[it].key;
    var got := Get(s, key);
    var t := got.cache;
    if got.found.Some? && comm == Add then
      (Remove(Update(t, got.found.value), got.found.value), NotStored)
    else if got.found.None? && (comm == Replace || comm == Append || comm == Prepend) then (t, NotStored)
    else if got.locked && (comm == Replace || comm == Add || comm == Append || comm == Prepend) then (t, NotStored)
    else if comm == Cas then
      var h := if got.locked then GetNoCheck(t, key) else got;
      if h.found.None? then (h.cache, NotFound)
      else if s.items[it].casId == h.cache.items[h.found.value].casId then
        (PutOver(h.cache, h.found.value, it), Stored)
      else (Remove(h.cache, h.found.value), Exists)
    else if comm == Append || comm == Prepend then
      StoreJoined(t, got.found.value, it, comm, g)
    else
      var h := if got.locked then GetNoCheck(t, key) else got;
      if h.found.Some? then (PutOver(h.cache, h.found.value, it), Stored)
      else (Link(h.cache, it), Stored)
  }
}
