/** Whole runs of cache commands: what holds in every reachable state. */
module ItemCacheRun {
  import opened Seqs
  import opened ItemCache
  import opened ItemCacheSteps
  import opened ItemCacheOps
  import opened ItemCacheView
  import opened ItemCacheStore
  import opened ItemCacheStoreProof

  /** One command, or one event that reaches the cache.  Each is atomic. */
  datatype Op =
    | Fetch(key: Key)                              // one key of get or gets
    | Begin(key: Key, flags: int, exptime: nat, data: string, casId: nat, isSet: bool, g: Grants)
                                                   // the command line of a storage command
    | Finish(it: Addr, comm: Command, g: Grants)   // its data block has arrived and is well formed
    | Release(it: Addr)                            // a reference given back
    | Incr(key: Key, text: string, g: Grants)      // incr or decr; text is the number to write
    | Delete(key: Key, delay: int, started: nat, room: bool)
                                                   // delay as the client wrote it; started is stats.started, and
                                                   // room says whether todelete has room or can be made larger
    | Flush(oldest: nat)                           // flush_all
    | Reap                                         // the deferred-delete timer
    | Tick(seconds: nat)

  // ---- the commands -------------------------------------------------------------------------

  function DoFetch(s: Cache, key: Key): Cache {
    var g := Get(s, key);
    if g.found.Some? then Update(g.cache, g.found.value) else g.cache
  }

  /** delete without a delay, and the clean-up of a set that found no memory. */
  function DeleteNow(s: Cache, key: Key): Cache {
    var g := Get(s, key);
    if g.found.Some? then Remove(Unlink(g.cache, g.found.value), g.found.value) else g.cache
  }

  function WithCas(s: Cache, a: Addr, casId: nat): Cache {
    if a in s.items then s.(items := s.items[a := s.items[a].(casId := casId)]) else s
  }

  function DoBegin(s: Cache, key: Key, flags: int, exptime: nat, data: string, casId: nat, isSet: bool,
                   g: Grants): Cache
  {
    var (t, room) := ItemCacheOps.Alloc(s, key, flags, exptime, data, g);
    if room.Some? then WithCas(t, room.value, casId)
    else if isSet then DeleteNow(t, key)
    else t
  }

  function DoFinish(s: Cache, it: Addr, comm: Command, g: Grants): Cache {
    if it in s.items then Remove(Store(s, it, comm, g).0, it) else s
  }

  function Spaces(n: nat): string {
    if n == 0 then "" else " " + Spaces(n - 1)
  }

  /** The in-place branch of do_add_delta. */
  function Rewrite(s: Cache, a: Addr, text: string): Cache {
    if a !in s.items || |text| + 2 > |s.items[a].data| then s
    else
      var it := s.items[a];
      var end := |it.data| - 2;
      var id := s.casCounter + 1;
      var data := text + Spaces(end - |text|) + it.data[end..];
      s.(items := s.items[a := it.(data := data, casId := id)],
         casCounter := id,
         versions := s.versions[id := Version(it.key, it.flags, data)])
  }

  /** do_add_delta on an item on which the command holds a reference. */
  function AddDelta(s: Cache, a: Addr, text: string, g: Grants): Cache {
    if a !in s.items then s
    else
      var it := s.items[a];
      if |text| + 2 > |it.data| then
        var (t, room) := ItemCacheOps.Alloc(s, it.key, it.flags, it.exptime, text + "\r\n", g);
        if room.Some? then Remove(Supplant(t, a, room.value), room.value) else t
      else Rewrite(s, a, text)
  }

  function DoIncr(s: Cache, key: Key, text: string, g: Grants): Cache {
    var got := Get(s, key);
    if got.found.Some? then Remove(AddDelta(got.cache, got.found.value, text, g), got.found.value) else got.cache
  }

  const REALTIME_MAXDELTA: int := 60 * 60 * 24 * 30

  /** realtime, in 32-bit unsigned arithmetic. */
  function Realtime(exptime: int, started: nat, now: nat): nat {
    if exptime == 0 then 0
    else if exptime > REALTIME_MAXDELTA then
      if exptime <= started then 1 else (exptime - started) % WRAP32
    else (exptime + now) % WRAP32
  }

  /** do_defer_delete with room on todelete: the caller's reference passes to the entry. */
  function Defer(s: Cache, a: Addr, until: nat): Cache {
    if a !in s.items then s
    else
      s.(items := s.items[a := s.items[a].(exptime := until, deleted := true)],
         todelete := s.todelete + [a],
         held := s.held - multiset{a})
  }

  function DoDelete(s: Cache, key: Key, exptime: int, started: nat, room: bool): Cache {
    if exptime == 0 then DeleteNow(s, key)
    else
      var g := Get(s, key);
      if g.found.None? then g.cache
      else if room then Defer(g.cache, g.found.value, Realtime(exptime, started, s.now))
      else Remove(g.cache, g.found.value)
  }

  /** One expired entry of todelete: its reference passes back, then the item goes. */
  function Reclaim(s: Cache, i: nat): Cache
    requires i < |s.todelete|
  {
    Remove(Unlink(Unqueued(s, i), s.todelete[i]), s.todelete[i])
  }

  /** Entry i leaves todelete; its reference is held until do_item_remove. */
  function Unqueued(s: Cache, i: nat): Cache
    requires i < |s.todelete|
  {
    var a := s.todelete[i];
    var t := s.(todelete := Omit(s.todelete, i));
    if a in s.items then
      t.(items := s.items[a := s.items[a].(deleted := false)], held := s.held + multiset{a})
    else t
  }

  lemma ReclaimLength(s: Cache, i: nat)
    requires i < |s.todelete|
    ensures |Reclaim(s, i).todelete| == |s.todelete| - 1
  {
    hide Unlink, Remove;
    var t := Unqueued(s, i);
    UnlinkTodelete(t, s.todelete[i]);
    RemoveTodelete(Unlink(t, s.todelete[i]), s.todelete[i]);
  }

  lemma UnlinkTodelete(s: Cache, a: Addr)
    ensures Unlink(s, a).todelete == s.todelete
  {
  }

  lemma RemoveTodelete(s: Cache, a: Addr)
    ensures Remove(s, a).todelete == s.todelete
  {
  }

  /** do_run_deferred_deletes, from entry i on. */
  function ReapFrom(s: Cache, i: nat): Cache
    requires i <= |s.todelete|
    decreases |s.todelete| - i
  {
    if i == |s.todelete| then s
    else
      var a := s.todelete[i];
      if a in s.items && s.now < s.items[a].exptime then ReapFrom(s, i + 1)
      else
        ReclaimLength(s, i);
        ReapFrom(Reclaim(s, i), i)
  }

  /** The walk of do_item_flush_expired down one list, which it reads before unlinking. */
  function FlushWalk(s: Cache, list: seq<Addr>): Cache
    decreases |list|
  {
    if list == [] || list[0] !in s.items || s.items[list[0]].time < s.oldestLive then s
    else FlushWalk(Unlink(s, list[0]), list[1..])
  }

  function FlushFrom(s: Cache, c: nat): Cache
    decreases LARGEST_ID - c
  {
    if c >= LARGEST_ID || c >= |s.lru| then s else FlushFrom(FlushWalk(s, s.lru[c]), c + 1)
  }

  function DoFlush(s: Cache, oldest: nat): Cache {
    var t := s.(oldestLive := oldest);
    if oldest == 0 then t else FlushFrom(t, 0)
  }

  function Step(s: Cache, op: Op): Cache {
    match op
    case Fetch(key) => DoFetch(s, key)
    case Begin(key, flags, exptime, data, casId, isSet, g) => DoBegin(s, key, flags, exptime, data, casId, isSet, g)
    case Finish(it, comm, g) => DoFinish(s, it, comm, g)
    case Release(it) => Remove(s, it)
    case Incr(key, text, g) => DoIncr(s, key, text, g)
    case Delete(key, exptime, started, room) => DoDelete(s, key, exptime, started, room)
    case Flush(oldest) => DoFlush(s, oldest)
    case Reap => ReapFrom(s, 0)
    case Tick(seconds) => s.(now := s.now + seconds)
  }

  /** What the callers see to: references are given back only by those who hold them, and a
      chunk is stored only while it is not linked; data blocks count their CRLF. */
  ghost predicate Allowed(s: Cache, op: Op) {
    match op
    case Begin(_, _, _, data, _, _, _) => |data| >= 2
    case Finish(it, _, _) => it in s.items && s.held[it] > 0 && !s.items[it].linked && !s.items[it].deleted
    case Release(it) => it in s.items && s.held[it] > 0
    case _ => true
  }

  function Run(s: Cache, ops: seq<Op>): Cache
    decreases |ops|
  {
    if ops == [] then s else Run(Step(s, ops[0]), ops[1..])
  }

  ghost predicate AllowedRun(s: Cache, ops: seq<Op>)
    decreases |ops|
  {
    ops == [] || (Allowed(s, ops[0]) && AllowedRun(Step(s, ops[0]), ops[1..]))
  }

  /** item_init, with the clock already two seconds past the start of the server. */
  function Empty(classes: seq<nat>, evict: bool): Cache {
    Cache(map[], map[], seq(LARGEST_ID, _ => []), seq(LARGEST_ID, _ => 0), 0, 0, multiset{}, [], multiset{},
          2, 0, 0, map[], classes, evict)
  }

  // ---- every command keeps the invariant ------------------------------------------------------

  /** t comes after s at the same time and under the same flush. */
  ghost predicate Forward(s: Cache, t: Cache) {
    t.now == s.now && t.oldestLive == s.oldestLive && History(s, t)
  }

  lemma ForwardTrans(s: Cache, t: Cache, u: Cache)
    requires Forward(s, t) && Forward(t, u)
    ensures Forward(s, u)
  {
    hide OldLinks;
    LinksTrans(s, t, u);
  }

  lemma FetchKeeps(s: Cache, key: Key)
    requires Valid(s)
    ensures Valid(DoFetch(s, key)) && Forward(s, DoFetch(s, key))
  {
    hide Core, LiveOk, View, Get, Update, Holding, History;
    GetEffect(s, key);
    var g := Get(s, key);
    if g.found.Some? {
      HoldingEntry(g.cache, key, g.found.value);
      UpdateStep(g.cache, key, g.found.value);
      ForwardTrans(s, g.cache, Update(g.cache, g.found.value));
    }
  }

  lemma UpdateStep(s: Cache, key: Key, a: Addr)
    requires Valid(s) && Holding(s, key, a) && !Flushed(s, s.items[a])
    ensures Valid(Update(s, a)) && Forward(s, Update(s, a))
  {
    hide TableOk, LruOk, CountsOk, RefsOk, DeletedOk, SpareOk, TimeOk, CasOk, LiveOk, View, History;
    TimeBound(s, a);
    UpdateKeeps(s, a);
    UpdateView(s, a);
  }

  lemma DeleteNowKeeps(s: Cache, key: Key)
    requires Valid(s)
    ensures Valid(DeleteNow(s, key)) && Forward(s, DeleteNow(s, key))
  {
    hide Core, LiveOk, View, Get, Unlink, Remove, History;
    GetEffect(s, key);
    var g := Get(s, key);
    if g.found.Some? {
      var a := g.found.value;
      UnlinkEffect(g.cache, key, a, a);
      DropEffect(Unlink(g.cache, a), a, a);
      ForwardTrans(s, g.cache, Unlink(g.cache, a));
      ForwardTrans(s, Unlink(g.cache, a), DeleteNow(s, key));
    }
  }

  lemma WithCasKeeps(s: Cache, a: Addr, casId: nat)
    requires Valid(s) && a in s.items && !s.items[a].linked
    ensures Valid(WithCas(s, a, casId)) && Forward(s, WithCas(s, a, casId))
  {
    hide TableOk, LruOk, CountsOk, RefsOk, DeletedOk, SpareOk, TimeOk, CasOk, LiveOk, Alike, History;
    WithCasRest(s, a, casId);
    WithCasHistory(s, a, casId);
    AlikeKeeps(s, WithCas(s, a, casId));
  }

  lemma WithCasRest(s: Cache, a: Addr, casId: nat)
    requires Shape(s) && RefsOk(s) && DeletedOk(s) && SpareOk(s) && LiveOk(s) && a in s.items && !s.items[a].linked
    ensures var t := WithCas(s, a, casId);
      Shape(t) && RefsOk(t) && DeletedOk(t) && SpareOk(t) && LiveOk(t) && Alike(s.items, t.items)
  {
  }

  lemma WithCasHistory(s: Cache, a: Addr, casId: nat)
    requires CasOk(s)
    ensures History(s, WithCas(s, a, casId))
  {
  }

  lemma BeginKeeps(s: Cache, key: Key, flags: int, exptime: nat, data: string, casId: nat, isSet: bool, g: Grants)
    requires Valid(s) && |data| >= 2
    ensures var t := DoBegin(s, key, flags, exptime, data, casId, isSet, g); Valid(t) && Forward(s, t)
  {
    hide Core, LiveOk, View, ItemCacheOps.Alloc, WithCas, DeleteNow, History;
    var lost := AllocEffect(s, key, flags, exptime, data, g, 0);
    var (t, room) := ItemCacheOps.Alloc(s, key, flags, exptime, data, g);
    if room.Some? {
      WithCasKeeps(t, room.value, casId);
      ForwardTrans(s, t, WithCas(t, room.value, casId));
    } else if isSet {
      DeleteNowKeeps(t, key);
      ForwardTrans(s, t, DeleteNow(t, key));
    }
  }

  lemma FinishKeeps(s: Cache, it: Addr, comm: Command, g: Grants)
    requires Valid(s) && Allowed(s, Finish(it, comm, g))
    ensures var t := DoFinish(s, it, comm, g); Valid(t) && Forward(s, t)
  {
    hide Core, LiveOk, View, Store, Remove, History, Refines, Pruned, Idle;
    var lost, room := StoreRefines(s, it, comm, g);
    var t := Store(s, it, comm, g).0;
    HeldInUse(t, it);
    DropEffect(t, it, it);
    ForwardTrans(s, t, Remove(t, it));
  }

  lemma HeldInUse(s: Cache, a: Addr)
    requires Valid(s) && s.held[a] > 0
    ensures a in s.items
  {
    hide Shape, TableOk, LruOk, CountsOk, DeletedOk, SpareOk, TimeOk, CasOk, LiveOk;
  }

  lemma ReleaseKeeps(s: Cache, a: Addr)
    requires Valid(s) && a in s.items && s.held[a] > 0
    ensures Valid(Remove(s, a)) && Forward(s, Remove(s, a))
  {
    hide Core, LiveOk, View, Remove, History;
    DropEffect(s, a, a);
  }

  // ---- incr and decr --------------------------------------------------------------------------

  lemma {:induction false} SpacesLength(n: nat)
    ensures |Spaces(n)| == n
  {
    if n > 0 {
      SpacesLength(n - 1);
    }
  }

  lemma RewriteData(s: Cache, a: Addr, text: string)
    requires a in s.items && |text| + 2 <= |s.items[a].data|
    ensures var t := Rewrite(s, a, text);
      && a in t.items && |t.items[a].data| == |s.items[a].data|
      && t.items[a] == s.items[a].(data := t.items[a].data, casId := s.casCounter + 1)
      && t.versions == s.versions[s.casCounter + 1 := Version(s.items[a].key, s.items[a].flags, t.items[a].data)]
      && t == s.(items := s.items[a := t.items[a]], casCounter := s.casCounter + 1, versions := t.versions)
  {
    SpacesLength(|s.items[a].data| - 2 - |text|);
  }

  lemma RewriteRest(s: Cache, a: Addr, text: string)
    requires Shape(s) && RefsOk(s) && DeletedOk(s) && SpareOk(s) && LiveOk(s)
    requires a in s.items && |text| + 2 <= |s.items[a].data|
    ensures var t := Rewrite(s, a, text); Shape(t) && RefsOk(t) && DeletedOk(t) && SpareOk(t) && LiveOk(t)
  {
    RewriteData(s, a, text);
    hide Rewrite;
  }

  lemma RewriteTable(s: Cache, a: Addr, text: string)
    requires Shape(s) && TableOk(s) && LruOk(s) && a in s.items && |text| + 2 <= |s.items[a].data|
    ensures var t := Rewrite(s, a, text); Shape(t) && TableOk(t) && LruOk(t)
  {
    RewriteData(s, a, text);
    hide Rewrite;
  }

  lemma RewriteCas(s: Cache, a: Addr, text: string)
    requires CasOk(s) && a in s.items && s.items[a].linked && |text| + 2 <= |s.items[a].data|
    ensures CasOk(Rewrite(s, a, text)) && History(s, Rewrite(s, a, text))
  {
    RewriteData(s, a, text);
    hide Rewrite;
  }

  lemma RewriteSums(s: Cache, a: Addr, text: string)
    requires Shape(s) && LruOk(s) && CountsOk(s) && TimeOk(s)
    requires a in s.items && |text| + 2 <= |s.items[a].data|
    ensures var t := Rewrite(s, a, text); Shape(t) && CountsOk(t) && TimeOk(t)
  {
    RewriteData(s, a, text);
    hide Rewrite;
    var t := Rewrite(s, a, text);
    AllBytesFrame(s.items, t.items, s.lru);
    forall c | 0 <= c < LARGEST_ID
      ensures NewestFirst(t.items, t.lru[c])
    {
      NewestFirstFrame(s.items, t.items, s.lru[c]);
    }
  }

  lemma RewriteKeeps(s: Cache, key: Key, a: Addr, text: string)
    requires Valid(s) && Holding(s, key, a) && |text| + 2 <= |s.items[a].data|
    ensures var t := Rewrite(s, a, text);
      Valid(t) && Forward(s, t) && t.held == s.held && a in t.items
  {
    RewriteData(s, a, text);
    hide Shape, TableOk, LruOk, CountsOk, RefsOk, DeletedOk, SpareOk, TimeOk, CasOk, LiveOk, View, History, Rewrite;
    RewriteRest(s, a, text);
    RewriteTable(s, a, text);
    RewriteCas(s, a, text);
    RewriteSums(s, a, text);
  }

  /** The reallocating branch of do_add_delta. */
  lemma ReallocKeeps(s: Cache, key: Key, a: Addr, text: string, g: Grants)
    requires Valid(s) && Holding(s, key, a)
    ensures var it := s.items[a];
      var (t, room) := ItemCacheOps.Alloc(s, it.key, it.flags, it.exptime, text + "\r\n", g);
      var u := if room.Some? then Remove(Supplant(t, a, room.value), room.value) else t;
      Valid(u) && Forward(s, u) && u.held == s.held
  {
    hide Core, LiveOk, View, ItemCacheOps.Alloc, Unlink, Link, Remove, History, NewChunk;
    var it := s.items[a];
    var lost := JoinAlloc(s, key, a, text + "\r\n", g);
    var (t, room) := ItemCacheOps.Alloc(s, it.key, it.flags, it.exptime, text + "\r\n", g);
    if room.Some? {
      SupplantStep(t, key, a, room.value, it.flags, it.exptime, text + "\r\n");
      ForwardTrans(s, t, Remove(Supplant(t, a, room.value), room.value));
    }
  }

  lemma SupplantStep(t: Cache, key: Key, a: Addr, n: Addr, flags: int, exptime: nat, data: string)
    requires Valid(t) && Holding(t, key, a) && NewChunk(t, n, key, flags, exptime, data) && n != a
    ensures var u := Remove(Supplant(t, a, n), n);
      Valid(u) && Forward(t, u) && u.held == t.held - multiset{n}
  {
    hide Core, LiveOk, View, Unlink, Link, Remove, History;
    UnlinkEffect(t, key, a, n);
    LinkEffect(Unlink(t, a), n, n);
    DropEffect(Supplant(t, a, n), n, n);
    ForwardTrans(t, Unlink(t, a), Supplant(t, a, n));
    ForwardTrans(t, Supplant(t, a, n), Remove(Supplant(t, a, n), n));
  }

  lemma IncrKeeps(s: Cache, key: Key, text: string, g: Grants)
    requires Valid(s)
    ensures Valid(DoIncr(s, key, text, g)) && Forward(s, DoIncr(s, key, text, g))
  {
    hide Core, LiveOk, View, Get, Remove, History, Rewrite, ItemCacheOps.Alloc, Supplant;
    GetEffect(s, key);
    var got := Get(s, key);
    if got.found.Some? {
      var t, a := got.cache, got.found.value;
      if |text| + 2 > |t.items[a].data| {
        ReallocKeeps(t, key, a, text, g);
      } else {
        RewriteKeeps(t, key, a, text);
      }
      var u := AddDelta(t, a, text, g);
      HeldInUse(u, a);
      DropEffect(u, a, a);
      ForwardTrans(s, t, u);
      ForwardTrans(s, u, Remove(u, a));
    }
  }

  // ---- deferred deletes ------------------------------------------------------------------------

  lemma DeferRefs(s: Cache, a: Addr, until: nat)
    requires RefsOk(s) && LiveOk(s) && a in s.items && s.held[a] > 0
    ensures RefsOk(Defer(s, a, until)) && LiveOk(Defer(s, a, until))
  {
  }

  lemma DeferRest(s: Cache, a: Addr, until: nat)
    requires Shape(s) && SpareOk(s) && CasOk(s) && a in s.items
    ensures var t := Defer(s, a, until);
      Shape(t) && SpareOk(t) && Alike(s.items, t.items) && History(s, t)
  {
  }

  lemma DeferDeleted(s: Cache, a: Addr, until: nat)
    requires DeletedOk(s) && a in s.items
    ensures DeletedOk(Defer(s, a, until))
  {
  }

  /** Whatever the time, and even for an item that waits on todelete already. */
  lemma DeferKeeps(s: Cache, a: Addr, until: nat)
    requires Valid(s) && a in s.items && s.held[a] > 0
    ensures Valid(Defer(s, a, until)) && Forward(s, Defer(s, a, until))
  {
    hide Shape, TableOk, LruOk, CountsOk, RefsOk, DeletedOk, SpareOk, TimeOk, CasOk, LiveOk, Alike, History;
    DeferRefs(s, a, until);
    DeferRest(s, a, until);
    DeferDeleted(s, a, until);
    AlikeKeeps(s, Defer(s, a, until));
  }

  /** A lookup returns an item that waits on todelete exactly if its time there is 0 and no flush hides it. */
  lemma FoundQueued(s: Cache, key: Key)
    requires TableOk(s) && DeletedOk(s) && key in s.table && s.table[key] in s.todelete
    ensures var a := s.table[key];
      && a in s.items
      && (Get(s, key).found.Some? <==> s.items[a].exptime == 0 && !Flushed(s, s.items[a]))
  {
    assert s.table[key] in s.items;
    hide TableOk;
  }

  lemma DeleteKeeps(s: Cache, key: Key, exptime: int, started: nat, room: bool)
    requires Valid(s)
    ensures var t := DoDelete(s, key, exptime, started, room); Valid(t) && Forward(s, t)
  {
    hide Core, LiveOk, View, History, Get, Defer, DeleteNow, Remove, Realtime;
    if exptime == 0 {
      DeleteNowKeeps(s, key);
    } else {
      GetEffect(s, key);
      var g := Get(s, key);
      if g.found.Some? {
        var a, until := g.found.value, Realtime(exptime, started, s.now);
        HoldingEntry(g.cache, key, a);
        DeferKeeps(g.cache, a, until);
        DropEffect(g.cache, a, a);
        ForwardTrans(s, g.cache, Defer(g.cache, a, until));
        ForwardTrans(s, g.cache, Remove(g.cache, a));
      }
    }
  }

  lemma UnqueuedRefs(s: Cache, i: nat)
    requires RefsOk(s) && LiveOk(s) && i < |s.todelete|
    ensures var t := Unqueued(s, i); var a := s.todelete[i];
      RefsOk(t) && LiveOk(t) && t.held[a] > 0 && a in t.items
  {
    hide Omit;
    QueuedRef(s, i);
    UnqueuedRefsOnly(s, i);
    var a := s.todelete[i];
    assert s.items[a].refcount > 0;
    UnqueuedLive(s, i);
    hide RefsOk, LiveOk;
  }

  /** A queued item exists, and the queue owns a reference to it. */
  lemma QueuedRef(s: Cache, i: nat)
    requires RefsOk(s) && i < |s.todelete|
    ensures var a := s.todelete[i]; a in s.items && multiset(s.todelete)[a] > 0
  {
    assert s.todelete[i] in s.todelete;
    assert s.todelete[i] in multiset(s.todelete);
  }

  lemma UnqueuedRefsOnly(s: Cache, i: nat)
    requires RefsOk(s) && i < |s.todelete|
    ensures RefsOk(Unqueued(s, i))
  {
    hide Omit;
    OmitCounts(s.todelete, i);
    QueuedRef(s, i);
    var t := Unqueued(s, i);
    forall a | a in t.todelete ensures a in t.items {
      OmitIn(s.todelete, i, a);
    }
  }

  lemma UnqueuedLive(s: Cache, i: nat)
    requires LiveOk(s) && i < |s.todelete|
    ensures LiveOk(Unqueued(s, i))
  {
    hide Omit;
  }

  /** The flag of an item that waits twice is gone after its first entry, but then its time has come. */
  lemma UnqueuedDeleted(s: Cache, i: nat)
    requires DeletedOk(s) && i < |s.todelete|
    requires s.todelete[i] in s.items && s.items[s.todelete[i]].exptime <= s.now
    ensures DeletedOk(Unqueued(s, i))
  {
    hide Omit;
    var t := Unqueued(s, i);
    forall a | a in t.items
      ensures t.items[a].deleted ==> a in t.todelete
      ensures a in t.todelete ==> t.items[a].deleted || t.items[a].exptime <= t.now
    {
      OmitIn(s.todelete, i, a);
    }
  }

  lemma UnqueuedRest(s: Cache, i: nat)
    requires Shape(s) && SpareOk(s) && CasOk(s) && i < |s.todelete|
    ensures var t := Unqueued(s, i); Shape(t) && SpareOk(t) && Alike(s.items, t.items) && History(s, t)
  {
    UnqueuedShape(s, i);
    UnqueuedHistory(s, i);
    hide Shape, SpareOk, Alike, History;
  }

  lemma UnqueuedShape(s: Cache, i: nat)
    requires Shape(s) && SpareOk(s) && i < |s.todelete|
    ensures var t := Unqueued(s, i); Shape(t) && SpareOk(t) && Alike(s.items, t.items)
  {
    hide Omit;
  }

  lemma UnqueuedHistory(s: Cache, i: nat)
    requires CasOk(s) && i < |s.todelete|
    ensures History(s, Unqueued(s, i))
  {
    hide Omit;
  }

  /** The entry's time has come. */
  predicate Due(s: Cache, i: nat)
    requires i < |s.todelete|
  {
    s.todelete[i] in s.items ==> s.items[s.todelete[i]].exptime <= s.now
  }

  lemma UnqueuedKeeps(s: Cache, i: nat)
    requires Valid(s) && i < |s.todelete| && Due(s, i)
    ensures var t := Unqueued(s, i); var a := s.todelete[i];
      Valid(t) && Forward(s, t) && t.held[a] > 0 && a in t.items
  {
    hide Shape, TableOk, LruOk, CountsOk, RefsOk, DeletedOk, SpareOk, TimeOk, CasOk, LiveOk, Alike, History;
    QueuedRef(s, i);
    UnqueuedRefs(s, i);
    UnqueuedDeleted(s, i);
    UnqueuedRest(s, i);
    AlikeKeeps(s, Unqueued(s, i));
  }

  lemma UnlinkStep(s: Cache, a: Addr)
    requires Valid(s) && a in s.items
    ensures var t := Unlink(s, a);
      && Valid(t) && Forward(s, t) && t.held == s.held && (s.items[a].refcount > 0 ==> a in t.items)
  {
    hide Core, LiveOk, History;
    UnlinkKeeps(s, a);
    CoreParts(s);
    hide CasOk, Shape, TableOk;
    UnlinkHistory(s, a);
  }

  lemma HeldCounted(s: Cache, a: Addr)
    requires Valid(s) && s.held[a] > 0
    ensures a in s.items && s.items[a].refcount > 0
  {
    hide Shape, TableOk, LruOk, CountsOk, DeletedOk, SpareOk, TimeOk, CasOk, LiveOk;
  }

  lemma ReclaimKeeps(s: Cache, i: nat)
    requires Valid(s) && i < |s.todelete| && Due(s, i)
    ensures Valid(Reclaim(s, i)) && Forward(s, Reclaim(s, i))
  {
    hide Core, LiveOk, View, Unqueued, Unlink, Remove, History;
    var a := s.todelete[i];
    UnqueuedKeeps(s, i);
    var t := Unqueued(s, i);
    HeldCounted(t, a);
    UnlinkStep(t, a);
    DropEffect(Unlink(t, a), a, a);
    ForwardTrans(s, t, Unlink(t, a));
    ForwardTrans(s, Unlink(t, a), Reclaim(s, i));
  }

  lemma {:induction false} ReapKeeps(s: Cache, i: nat)
    requires Valid(s) && i <= |s.todelete|
    ensures Valid(ReapFrom(s, i)) && Forward(s, ReapFrom(s, i))
    decreases |s.todelete| - i
  {
    hide Core, LiveOk, Reclaim, History, CasOk, Shape, TableOk;
    if i == |s.todelete| {
      CoreParts(s);
      HistorySelf(s);
    } else if s.todelete[i] in s.items && s.now < s.items[s.todelete[i]].exptime {
      ReapKeeps(s, i + 1);
    } else {
      ReclaimLength(s, i);
      ReclaimKeeps(s, i);
      ReapKeeps(Reclaim(s, i), i);
      ForwardTrans(s, Reclaim(s, i), ReapFrom(s, i));
    }
  }

  lemma HistorySelf(s: Cache)
    requires CasOk(s)
    ensures History(s, s)
  {
  }

  // ---- flush_all ---------------------------------------------------------------------------------

  /** No item older than the flush is left on the list of class c that is not hidden by it. */
  ghost predicate Cleared(s: Cache, c: nat) {
    c < |s.lru| && forall b :: b in s.lru[c] && b in s.items ==> s.items[b].time < s.oldestLive
  }

  lemma UnlinkHead(s: Cache, c: nat)
    requires Valid(s) && c < LARGEST_ID && s.lru[c] != []
    ensures var a := s.lru[c][0]; var t := Unlink(s, a);
      && a in s.items && |t.lru| == |s.lru| && t.lru[c] == s.lru[c][1..]
      && (forall d :: 0 <= d < LARGEST_ID && d != c ==> t.lru[d] == s.lru[d])
      && (forall b :: b in t.items && b != a ==> b in s.items && t.items[b] == s.items[b])
      && (forall d :: 0 <= d < LARGEST_ID ==> a !in t.lru[d])
  {
    hide TableOk, CountsOk, RefsOk, DeletedOk, SpareOk, TimeOk, CasOk, LiveOk, Total;
    var a := s.lru[c][0];
    assert a in s.lru[c];
  }

  lemma UnlinkHeadClears(s: Cache, c: nat, d: nat)
    requires Valid(s) && c < LARGEST_ID && d < LARGEST_ID && s.lru[c] != [] && Cleared(s, d)
    ensures Cleared(Unlink(s, s.lru[c][0]), d)
  {
    UnlinkHead(s, c);
    UnlinkClock(s, s.lru[c][0]);
    hide Core, LiveOk, Unlink;
  }

  lemma UnlinkClock(s: Cache, a: Addr)
    ensures Unlink(s, a).now == s.now && Unlink(s, a).oldestLive == s.oldestLive
  {
  }

  lemma ListedInUse(s: Cache, c: nat)
    requires Valid(s) && c < LARGEST_ID && s.lru[c] != []
    ensures var a := s.lru[c][0];
      a in s.items && s.items[a].linked
      && (forall b :: b in s.lru[c] && b in s.items ==> s.items[b].time <= s.items[a].time)
  {
    hide TableOk, CountsOk, RefsOk, DeletedOk, SpareOk, CasOk, LiveOk;
    assert s.lru[c][0] in s.lru[c];
    assert forall b :: b in s.lru[c] ==> b == s.lru[c][0] || b in s.lru[c][1..];
  }

  /** The walk may stop at the first old item because the list is newest first. */
  lemma {:induction false} FlushWalkClears(s: Cache, c: nat)
    requires Valid(s) && c < LARGEST_ID
    ensures var t := FlushWalk(s, s.lru[c]);
      && Valid(t) && Forward(s, t) && Cleared(t, c)
    decreases |s.lru[c]|
  {
    hide Core, LiveOk, Unlink, History, CasOk, Shape, TableOk;
    CoreParts(s);
    HistorySelf(s);
    LruLength(s);
    if s.lru[c] != [] {
      ListedInUse(s, c);
      var a := s.lru[c][0];
      if s.items[a].time >= s.oldestLive {
        UnlinkHead(s, c);
        UnlinkStep(s, a);
        FlushWalkClears(Unlink(s, a), c);
        ForwardTrans(s, Unlink(s, a), FlushWalk(s, s.lru[c]));
      }
    }
  }

  lemma LruLength(s: Cache)
    requires Valid(s)
    ensures |s.lru| == LARGEST_ID
  {
    hide TableOk, LruOk, CountsOk, RefsOk, DeletedOk, SpareOk, TimeOk, CasOk, LiveOk;
  }

  lemma {:induction false} FlushWalkSpares(s: Cache, c: nat, d: nat)
    requires Valid(s) && c < LARGEST_ID && d < LARGEST_ID && Cleared(s, d)
    ensures Cleared(FlushWalk(s, s.lru[c]), d)
    decreases |s.lru[c]|
  {
    hide Core, LiveOk, Unlink, Cleared;
    LruLength(s);
    if s.lru[c] != [] {
      ListedInUse(s, c);
      var a := s.lru[c][0];
      if s.items[a].time >= s.oldestLive {
        UnlinkHead(s, c);
        UnlinkKeeps(s, a);
        UnlinkHeadClears(s, c, d);
        FlushWalkSpares(Unlink(s, a), c, d);
      }
    }
  }

  lemma {:induction false} FlushFromClears(s: Cache, c: nat)
    requires Valid(s) && c <= LARGEST_ID && forall d :: 0 <= d < c ==> Cleared(s, d)
    ensures var t := FlushFrom(s, c);
      && Valid(t) && Forward(s, t) && forall d :: 0 <= d < LARGEST_ID ==> Cleared(t, d)
    decreases LARGEST_ID - c
  {
    hide Core, LiveOk, FlushWalk, History, CasOk, Shape, TableOk, Cleared;
    CoreParts(s);
    HistorySelf(s);
    LruLength(s);
    if c < LARGEST_ID {
      FlushWalkClears(s, c);
      var t := FlushWalk(s, s.lru[c]);
      forall d | 0 <= d < c
        ensures Cleared(t, d)
      {
        FlushWalkSpares(s, c, d);
      }
      FlushFromClears(t, c + 1);
      ForwardTrans(s, t, FlushFrom(s, c));
    }
  }

  lemma FlushKeeps(s: Cache, oldest: nat)
    requires Valid(s)
    ensures var t := DoFlush(s, oldest);
      && Valid(t) && t.now == s.now && t.oldestLive == oldest && History(s.(oldestLive := oldest), t)
      && (oldest > 0 ==> forall d :: 0 <= d < LARGEST_ID ==> Cleared(t, d))
  {
    hide FlushFrom, History, TableOk, LruOk, CountsOk, RefsOk, DeletedOk, SpareOk, TimeOk, CasOk, LiveOk, Shape;
    var t := s.(oldestLive := oldest);
    ClockKeeps(s, t);
    HistorySelf(t);
    if oldest > 0 {
      FlushFromClears(t, 0);
    }
  }

  /** The invariant does not depend on the flush time, and survives the passing of time. */
  lemma ClockKeeps(s: Cache, t: Cache)
    requires Valid(s) && t == s.(oldestLive := t.oldestLive, now := t.now) && t.now >= s.now
    ensures Valid(t)
  {
    hide Shape, TableOk, LruOk, CountsOk, RefsOk, DeletedOk, SpareOk, TimeOk, CasOk, LiveOk;
    ClockLists(s, t);
    ClockRefs(s, t);
    ClockCas(s, t);
    ClockTime(s, t);
  }

  lemma ClockLists(s: Cache, t: Cache)
    requires Shape(s) && TableOk(s) && LruOk(s) && CountsOk(s) && t == s.(oldestLive := t.oldestLive, now := t.now)
    ensures Shape(t) && TableOk(t) && LruOk(t) && CountsOk(t)
  {
  }

  lemma ClockRefs(s: Cache, t: Cache)
    requires RefsOk(s) && DeletedOk(s) && SpareOk(s) && LiveOk(s) && t == s.(oldestLive := t.oldestLive, now := t.now)
    requires t.now >= s.now
    ensures RefsOk(t) && DeletedOk(t) && SpareOk(t) && LiveOk(t)
  {
  }

  lemma ClockCas(s: Cache, t: Cache)
    requires CasOk(s) && t == s.(oldestLive := t.oldestLive, now := t.now)
    ensures CasOk(t)
  {
  }

  lemma ClockTime(s: Cache, t: Cache)
    requires Shape(s) && Shape(t) && TimeOk(s) && t == s.(oldestLive := t.oldestLive, now := t.now) && t.now >= s.now
    ensures TimeOk(t)
  {
  }

  // ---- every reachable state ------------------------------------------------------------------------

  /** No step undoes what earlier steps settled, whatever the clock and the flush time do. */
  ghost predicate Settled(s: Cache, t: Cache) {
    s.casCounter <= t.casCounter && OldVersions(s, t) && OldChunks(s, t)
  }

  lemma StepKeeps(s: Cache, op: Op)
    requires Valid(s) && Allowed(s, op)
    ensures Valid(Step(s, op)) && Settled(s, Step(s, op))
    ensures !op.Flush? && !op.Tick? ==> Forward(s, Step(s, op))
  {
    hide Core, LiveOk, Shape, TableOk, CasOk, OldVersions, OldChunks;
    hide DoFetch, DoBegin, DoFinish, DoIncr, DoDelete, DoFlush, ReapFrom, Remove;
    CoreParts(s);
    HistorySelf(s);
    match op {
      case Fetch(key) => FetchKeeps(s, key);
      case Begin(key, flags, exptime, data, casId, isSet, g) =>
        BeginKeeps(s, key, flags, exptime, data, casId, isSet, g);
      case Finish(it, comm, g) => FinishKeeps(s, it, comm, g);
      case Release(it) => ReleaseKeeps(s, it);
      case Incr(key, text, g) => IncrKeeps(s, key, text, g);
      case Delete(key, exptime, started, room) => DeleteKeeps(s, key, exptime, started, room);
      case Flush(oldest) =>
        FlushKeeps(s, oldest);
        SettledHere(s, s.(oldestLive := oldest));
        SettledTrans(s, s.(oldestLive := oldest), DoFlush(s, oldest));
      case Reap => ReapKeeps(s, 0);
      case Tick(seconds) =>
        ClockKeeps(s, Step(s, op));
        SettledHere(s, Step(s, op));
    }
  }

  lemma SettledHere(s: Cache, t: Cache)
    requires t == s.(oldestLive := t.oldestLive, now := t.now)
    ensures Settled(s, t)
  {
  }

  lemma SettledTrans(s: Cache, t: Cache, u: Cache)
    requires Settled(s, t) && Settled(t, u)
    ensures Settled(s, u)
  {
  }

  lemma EmptyValid(classes: seq<nat>, evict: bool)
    requires |classes| <= LARGEST_ID
    ensures Valid(Empty(classes, evict))
  {
    var s := Empty(classes, evict);
    EmptyBytes(s.items, s.lru);
  }

  lemma {:induction false} EmptyBytes(items: map<Addr, Item>, lru: seq<seq<Addr>>)
    requires forall c :: 0 <= c < |lru| ==> lru[c] == []
    ensures AllBytes(items, lru) == 0
  {
    if lru != [] {
      EmptyBytes(items, lru[1..]);
    }
  }

  /** The invariant holds in every state that any sequence of commands reaches. */
  lemma {:induction false} RunKeeps(s: Cache, ops: seq<Op>)
    requires Valid(s) && AllowedRun(s, ops)
    ensures Valid(Run(s, ops)) && Settled(s, Run(s, ops))
    decreases |ops|
  {
    hide Valid, Settled, Step;
    if ops == [] {
      SettledHere(s, s);
    } else {
      StepKeeps(s, ops[0]);
      RunKeeps(Step(s, ops[0]), ops[1..]);
      SettledTrans(s, Step(s, ops[0]), Run(s, ops));
    }
  }
}
