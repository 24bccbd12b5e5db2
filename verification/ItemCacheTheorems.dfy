/** What the cache promises its clients, over every run. */
module ItemCacheTheorems {
  import opened Seqs
  import opened ItemCache
  import opened ItemCacheSteps
  import opened ItemCacheOps
  import opened ItemCacheView
  import opened ItemCacheStore
  import opened ItemCacheStoreProof
  import opened ItemCacheRun
  import Slabs

  // ---- coherence ------------------------------------------------------------------------------

  /** In every reachable state the flag, the hash table, the LRU lists, the counters, the
      reference counts and the free chunks tell one story. */
  lemma ReachableCoherent(classes: seq<nat>, evict: bool, ops: seq<Op>)
    requires |classes| <= LARGEST_ID && AllowedRun(Empty(classes, evict), ops)
    ensures var s := Run(Empty(classes, evict), ops);
      && |s.lru| == |s.sizes| == LARGEST_ID && |s.table| == s.currItems
      && s.currBytes == AllBytes(s.items, s.lru)
      && (forall c :: 0 <= c < LARGEST_ID ==> s.sizes[c] == |s.lru[c]|)
      && forall a :: a in s.items ==>
           && (s.items[a].linked <==> s.items[a].key in s.table && s.table[s.items[a].key] == a)
           && (forall c :: 0 <= c < LARGEST_ID ==>
                 multiset(s.lru[c])[a] == if s.items[a].linked && c == s.items[a].clsid then 1 else 0)
           && s.items[a].refcount == s.held[a] + multiset(s.todelete)[a]
           && (s.items[a].linked || s.items[a].refcount > 0)
           && s.spare[a] == 0
  {
    var s := Run(Empty(classes, evict), ops);
    assert Valid(s) by {
      EmptyValid(classes, evict);
      RunKeeps(Empty(classes, evict), ops);
    }
    hide Run, Empty, AllowedRun;
    forall a | a in s.items
      ensures s.items[a].linked <==> s.items[a].key in s.table && s.table[s.items[a].key] == a
      ensures s.items[a].refcount == s.held[a] + multiset(s.todelete)[a]
      ensures s.items[a].linked || s.items[a].refcount > 0
      ensures s.spare[a] == 0
    {
      CoherentItem(s, a);
    }
    forall a, c | a in s.items && 0 <= c < LARGEST_ID
      ensures multiset(s.lru[c])[a] == if s.items[a].linked && c == s.items[a].clsid then 1 else 0
    {
      CoherentLists(s, a, c);
    }
    hide TableOk, LruOk, RefsOk, DeletedOk, SpareOk, TimeOk, CasOk, LiveOk;
  }

  lemma CoherentItem(s: Cache, a: Addr)
    requires Valid(s) && a in s.items
    ensures s.items[a].linked <==> s.items[a].key in s.table && s.table[s.items[a].key] == a
    ensures s.items[a].refcount == s.held[a] + multiset(s.todelete)[a]
    ensures s.items[a].linked || s.items[a].refcount > 0
    ensures s.spare[a] == 0
  {
    hide Shape, LruOk, CountsOk, DeletedOk, TimeOk, CasOk;
  }

  lemma CoherentLists(s: Cache, a: Addr, c: nat)
    requires Valid(s) && a in s.items && c < LARGEST_ID
    ensures |s.lru| == LARGEST_ID
    ensures multiset(s.lru[c])[a] == if s.items[a].linked && c == s.items[a].clsid then 1 else 0
  {
    hide TableOk, CountsOk, RefsOk, DeletedOk, SpareOk, TimeOk, CasOk, LiveOk;
    NoDupCount(s.lru[c], a);
  }

  /** Over any run a chunk that was in use or spare is one or the other still, and if it has
      gone back to the slab allocator it did so once, nothing holding it. */
  lemma ChunksReturnOnce(s: Cache, ops: seq<Op>, a: Addr)
    requires Valid(s) && AllowedRun(s, ops) && (a in s.items || s.spare[a] > 0)
    ensures var t := Run(s, ops);
      a in t.items
      || (t.spare[a] == 1 && t.held[a] == 0 && a !in t.todelete && a !in t.table.Values
          && forall c :: 0 <= c < LARGEST_ID && c < |t.lru| ==> a !in t.lru[c])
  {
    hide Valid, Run;
    RunKeeps(s, ops);
    var t := Run(s, ops);
    if a !in t.items {
      NotInUse(t, a);
      assert t.spare[a] > 0 by { SettledChunk(s, t, a); }
    }
  }

  lemma SettledChunk(s: Cache, t: Cache, a: Addr)
    requires Settled(s, t) && (a in s.items || s.spare[a] > 0) && a !in t.items
    ensures t.spare[a] > 0
  {
  }

  lemma NotInUse(t: Cache, a: Addr)
    requires Valid(t) && a !in t.items
    ensures t.spare[a] <= 1 && t.held[a] == 0 && a !in t.todelete && a !in t.table.Values
    ensures forall c :: 0 <= c < LARGEST_ID && c < |t.lru| ==> a !in t.lru[c]
  {
    hide CountsOk, DeletedOk, TimeOk, CasOk, LiveOk;
    assert a !in t.held;
  }

  // ---- do_store_item: references and versions -----------------------------------------------------

  /** Every reference count that was positive is the same after the command. */
  lemma StoreKeepsCounts(s: Cache, it: Addr, comm: Command, g: Grants, b: Addr)
    requires Valid(s) && it in s.items && !s.items[it].linked && !s.items[it].deleted
    requires b in s.items && s.items[b].refcount > 0
    ensures var t := Store(s, it, comm, g).0; b in t.items && t.items[b].refcount == s.items[b].refcount
  {
    hide Valid, View, Store, Pruned, Refines, Idle, History;
    var lost, room := StoreRefines(s, it, comm, g);
    CountIs(s, b);
    CountIs(Store(s, it, comm, g).0, b);
  }

  lemma CountIs(s: Cache, b: Addr)
    requires Valid(s)
    ensures b in s.items ==> s.items[b].refcount == s.held[b] + multiset(s.todelete)[b]
    ensures s.held[b] + multiset(s.todelete)[b] > 0 ==> b in s.items
  {
    hide Shape, TableOk, LruOk, CountsOk, DeletedOk, SpareOk, TimeOk, CasOk, LiveOk;
    assert b in s.todelete <==> b in multiset(s.todelete);
  }

  /** A gets in state s reported the id of item a.  However many commands follow, a cas with
      that id that stores finds exactly the contents that gets reported. */
  lemma CasReplacesThatVersion(s: Cache, a: Addr, ops: seq<Op>, it: Addr, g: Grants)
    requires Valid(s) && AllowedRun(s, ops) && a in s.items && s.items[a].linked
    requires var t := Run(s, ops);
      it in t.items && !t.items[it].linked && !t.items[it].deleted
      && t.items[it].casId == s.items[a].casId
    ensures var t := Run(s, ops); var key := t.items[it].key;
      Store(t, it, Cas, g).1 == Stored ==>
        key == s.items[a].key && key in View(t)
        && View(t)[key].flags == s.items[a].flags && View(t)[key].data == s.items[a].data
  {
    hide *;
    var t := Run(s, ops);
    RunKeeps(s, ops);
    var lost, room := StoreRefines(t, it, Cas, g);
    if Store(t, it, Cas, g).1 == Stored {
      var i := t.items[it];
      StoredCas(View(t), i, t.now, t.oldestLive, t.casCounter + 1, lost, room, View(Store(t, it, Cas, g).0));
      VersionKept(s, t, a, i.key);
    }
  }

  lemma StoredCas(view: map<Key, Entry>, i: Item, now: nat, oldest: nat, id: nat, lost: set<Key>, room: bool,
                  after: map<Key, Entry>)
    requires Refines(Pruned(view, i.key, now, oldest), i, Cas, now, id, lost, room, Stored, after)
    ensures i.key in view && view[i.key].casId == i.casId
  {
  }

  lemma VersionKept(s: Cache, t: Cache, a: Addr, key: Key)
    requires Valid(s) && Valid(t) && Settled(s, t) && a in s.items && s.items[a].linked
    requires key in View(t) && View(t)[key].casId == s.items[a].casId
    ensures key == s.items[a].key
    ensures View(t)[key].flags == s.items[a].flags && View(t)[key].data == s.items[a].data
  {
    hide Shape, LruOk, CountsOk, RefsOk, DeletedOk, SpareOk, TimeOk, LiveOk, OldChunks;
    var b := t.table[key];
    assert t.versions[s.items[a].casId] == Version(s.items[a].key, s.items[a].flags, s.items[a].data);
    assert t.items[b].linked && t.items[b].key == key;
  }

  // ---- flush_all -------------------------------------------------------------------------------------

  /** Every item linked at CAS id `mark` or before is hidden by flush_all. */
  ghost predicate Buried(s: Cache, mark: nat) {
    0 < s.oldestLive <= s.now && mark <= s.casCounter
    && forall a :: a in s.items && s.items[a].linked && s.items[a].linkId <= mark ==>
         s.items[a].time <= s.oldestLive
  }

  /** flush_all with a time that has come buries all that is linked. */
  lemma FlushBuries(s: Cache, oldest: nat)
    requires Valid(s) && 0 < oldest <= s.now
    ensures Valid(DoFlush(s, oldest)) && Buried(DoFlush(s, oldest), s.casCounter)
  {
    hide Valid, DoFlush, OldVersions, OldChunks, OldLinks, Cleared;
    FlushKeeps(s, oldest);
    var t := DoFlush(s, oldest);
    assert t.casCounter >= s.casCounter by { LinksCounter(s.(oldestLive := oldest), t); }
    forall a | a in t.items && t.items[a].linked
      ensures t.items[a].time <= oldest
    {
      ClearedItem(t, a);
    }
  }

  lemma LinksCounter(s: Cache, t: Cache)
    requires OldLinks(s, t)
    ensures s.casCounter <= t.casCounter
  {
  }

  lemma ClearedItem(t: Cache, a: Addr)
    requires Valid(t) && a in t.items && t.items[a].linked
    requires forall d :: 0 <= d < LARGEST_ID ==> Cleared(t, d)
    ensures t.items[a].time < t.oldestLive
  {
    hide TableOk, CountsOk, RefsOk, DeletedOk, SpareOk, TimeOk, CasOk, LiveOk;
    assert Cleared(t, t.items[a].clsid);
  }

  /** The flush times that keep buried what is buried: a time that has come. */
  ghost predicate HasCome(s: Cache, op: Op) {
    op.Flush? ==> 0 < op.oldest <= s.now
  }

  ghost predicate FlushesHaveCome(s: Cache, ops: seq<Op>)
    decreases |ops|
  {
    ops == [] || (HasCome(s, ops[0]) && FlushesHaveCome(Step(s, ops[0]), ops[1..]))
  }

  lemma BuriedForward(s: Cache, t: Cache, mark: nat)
    requires Buried(s, mark) && Forward(s, t)
    ensures Buried(t, mark)
  {
    hide OldVersions, OldChunks;
  }

  lemma BuriedTick(s: Cache, seconds: nat, mark: nat)
    requires Buried(s, mark)
    ensures Buried(s.(now := s.now + seconds), mark)
  {
  }

  lemma BuriedLess(s: Cache, mark: nat, less: nat)
    requires Buried(s, mark) && less <= mark
    ensures Buried(s, less)
  {
  }

  lemma BuriedStep(s: Cache, op: Op, mark: nat)
    requires Valid(s) && Allowed(s, op) && HasCome(s, op) && Buried(s, mark)
    ensures Valid(Step(s, op)) && Buried(Step(s, op), mark)
  {
    hide *;
    StepKeeps(s, op);
    if op.Flush? {
      FlushIs(s, op.oldest);
      FlushCame(s, op);
      FlushBuries(s, op.oldest);
      BuriedMark(s, mark);
      BuriedLess(Step(s, op), s.casCounter, mark);
    } else if op.Tick? {
      TickIs(s, op.seconds);
      BuriedTick(s, op.seconds, mark);
    } else {
      BuriedForward(s, Step(s, op), mark);
    }
  }

  lemma FlushCame(s: Cache, op: Op)
    requires HasCome(s, op) && op.Flush?
    ensures 0 < op.oldest <= s.now
  {
  }

  lemma BuriedMark(s: Cache, mark: nat)
    requires Buried(s, mark)
    ensures mark <= s.casCounter
  {
  }

  lemma {:induction false} BuriedRun(s: Cache, ops: seq<Op>, mark: nat)
    requires Valid(s) && AllowedRun(s, ops) && FlushesHaveCome(s, ops) && Buried(s, mark)
    ensures Valid(Run(s, ops)) && Buried(Run(s, ops), mark)
    decreases |ops|
  {
    hide Valid, Buried, Step, HasCome;
    if ops != [] {
      BuriedStep(s, ops[0], mark);
      BuriedRun(Step(s, ops[0]), ops[1..], mark);
    }
  }

  /** After flush_all without a delay, no get, in any run whose later flushes have all come,
      returns an item that was linked before it: what it returns was linked later. */
  lemma FlushedForGood(s: Cache, ops: seq<Op>, key: Key)
    requires Valid(s) && s.now > 1
    requires var f := DoFlush(s, s.now - 1); AllowedRun(f, ops) && FlushesHaveCome(f, ops)
    ensures var t := Run(DoFlush(s, s.now - 1), ops); var g := Get(t, key);
      g.found.Some? ==> g.found.value in t.items && t.items[g.found.value].linkId > s.casCounter
  {
    var f := DoFlush(s, s.now - 1);
    hide Valid, Buried, DoFlush, Run, AllowedRun, FlushesHaveCome, Get;
    FlushBuries(s, s.now - 1);
    BuriedRun(f, ops, s.casCounter);
    FoundNotBuried(Run(f, ops), key, s.casCounter);
  }

  lemma FoundNotBuried(t: Cache, key: Key, mark: nat)
    requires Valid(t) && Buried(t, mark)
    ensures var g := Get(t, key); g.found.Some? ==> g.found.value in t.items && t.items[g.found.value].linkId > mark
  {
    hide Shape, LruOk, CountsOk, RefsOk, DeletedOk, SpareOk, TimeOk, CasOk, LiveOk;
    if key in t.table {
      assert t.items[t.table[key]].linked;
      hide TableOk;
    }
  }

  /** Items linked after CAS id `mark` have times no earlier than `since`. */
  ghost predicate Newer(s: Cache, mark: nat, since: nat) {
    since <= s.now && mark <= s.casCounter
    && forall a :: a in s.items && s.items[a].linked && s.items[a].linkId > mark ==> s.items[a].time >= since
  }

  lemma NewerLinks(s: Cache, t: Cache, mark: nat, since: nat)
    requires Newer(s, mark, since) && OldLinks(s, t) && t.now >= s.now
    ensures Newer(t, mark, since)
  {
  }

  lemma NewerStep(s: Cache, op: Op, mark: nat, since: nat)
    requires Valid(s) && Allowed(s, op) && Newer(s, mark, since)
    ensures Valid(Step(s, op)) && Newer(Step(s, op), mark, since)
  {
    hide *;
    StepKeeps(s, op);
    if op.Flush? {
      FlushIs(s, op.oldest);
      FlushKeeps(s, op.oldest);
      var f := s.(oldestLive := op.oldest);
      NewerClock(s, f, mark, since);
      NewerHistory(f, Step(s, op), mark, since);
    } else if op.Tick? {
      TickIs(s, op.seconds);
      NewerClock(s, Step(s, op), mark, since);
    } else {
      NewerForward(s, Step(s, op), mark, since);
    }
  }

  lemma NewerHistory(s: Cache, t: Cache, mark: nat, since: nat)
    requires Newer(s, mark, since) && History(s, t) && t.now >= s.now
    ensures Newer(t, mark, since)
  {
    hide OldLinks, OldVersions, OldChunks, Newer;
    NewerLinks(s, t, mark, since);
  }

  lemma NewerForward(s: Cache, t: Cache, mark: nat, since: nat)
    requires Newer(s, mark, since) && Forward(s, t)
    ensures Newer(t, mark, since)
  {
    hide History, Newer;
    NewerHistory(s, t, mark, since);
  }

  lemma NewerClock(s: Cache, t: Cache, mark: nat, since: nat)
    requires Newer(s, mark, since) && t == s.(oldestLive := t.oldestLive, now := t.now) && t.now >= s.now
    ensures Newer(t, mark, since)
  {
  }

  lemma {:induction false} NewerRun(s: Cache, ops: seq<Op>, mark: nat, since: nat)
    requires Valid(s) && AllowedRun(s, ops) && Newer(s, mark, since)
    ensures Newer(Run(s, ops), mark, since)
    decreases |ops|
  {
    hide Valid, Newer, Step;
    if ops != [] {
      NewerStep(s, ops[0], mark, since);
      NewerRun(Step(s, ops[0]), ops[1..], mark, since);
    }
  }

  /** What is linked after flush_all without a delay, in whatever run, is not hidden by it: not
      while its flush time stands. */
  lemma LaterLinksNotHidden(s: Cache, ops: seq<Op>, a: Addr)
    requires Valid(s) && s.now > 1
    requires var f := DoFlush(s, s.now - 1); AllowedRun(f, ops)
    requires var f := DoFlush(s, s.now - 1); var t := Run(f, ops);
      a in t.items && t.items[a].linked && t.items[a].linkId > f.casCounter && t.oldestLive == f.oldestLive
    ensures var t := Run(DoFlush(s, s.now - 1), ops); !Flushed(t, t.items[a])
  {
    hide Valid, FlushFrom, Run, AllowedRun, Cleared, History;
    var f := DoFlush(s, s.now - 1);
    FlushKeeps(s, s.now - 1);
    NoneNewer(f);
    NewerRun(f, ops, f.casCounter, s.now);
  }

  lemma NoneNewer(s: Cache)
    requires Valid(s)
    ensures Newer(s, s.casCounter, s.now)
  {
    hide Shape, TableOk, LruOk, CountsOk, RefsOk, DeletedOk, SpareOk, TimeOk, LiveOk;
  }

  /** The promise fails for a flush_all whose time has not come: it replaces the flush time, and
      every item that an earlier flush hid but did not unlink can be got again.  That, or a flush
      time of zero, is the only way: for an item hidden now, a get returns it after the next
      flush_all exactly if that flush's time has not come and the item is neither locked nor
      expired. */
  lemma FlushUnhides(s: Cache, a: Addr, oldest: nat)
    requires Valid(s) && a in s.items && s.items[a].linked && Flushed(s, s.items[a])
    ensures Get(DoFlush(s, oldest), s.items[a].key).found == Some(a) <==>
      (oldest == 0 || oldest > s.now) && !Locked(s, s.items[a]) && !Expired(s, s.items[a])
  {
    hide *;
    if 0 < oldest <= s.now {
      StaysHidden(s, oldest, a);
    } else {
      TimesPast(s);
      FlushIdle(s, oldest);
      InTable(s, a);
      FoundAgain(s, a, oldest);
    }
  }

  /** A lookup under a flush time that has not come, or under none. */
  lemma FoundAgain(s: Cache, a: Addr, oldest: nat)
    requires a in s.items && s.items[a].key in s.table && s.table[s.items[a].key] == a
    requires oldest == 0 || oldest > s.now
    ensures Get(s.(oldestLive := oldest), s.items[a].key).found == Some(a) <==>
            !Locked(s, s.items[a]) && !Expired(s, s.items[a])
  {
    hide Unlink, Take;
  }

  lemma TimesPast(s: Cache)
    requires Valid(s)
    ensures forall a :: a in s.items && s.items[a].linked ==> s.items[a].time <= s.now
  {
    hide TableOk, LruOk, CountsOk, RefsOk, DeletedOk, SpareOk, CasOk, LiveOk;
  }

  lemma InTable(s: Cache, a: Addr)
    requires Valid(s) && a in s.items && s.items[a].linked
    ensures s.items[a].key in s.table && s.table[s.items[a].key] == a
  {
    hide Shape, LruOk, CountsOk, RefsOk, DeletedOk, SpareOk, TimeOk, CasOk, LiveOk;
  }

  lemma StaysHidden(s: Cache, oldest: nat, a: Addr)
    requires Valid(s) && a in s.items && s.items[a].linked && 0 < oldest <= s.now
    ensures Get(DoFlush(s, oldest), s.items[a].key).found != Some(a)
  {
    hide Valid, Get, DoFlush, Buried, OldLinks, Cleared, History;
    var t := DoFlush(s, oldest);
    FlushKeeps(s, oldest);
    if Get(t, s.items[a].key).found == Some(a) {
      FoundLinked(t, s.items[a].key);
      ClearedItem(t, a);
      NotFoundFlushed(t, s.items[a].key, a);
    }
  }

  lemma FoundLinked(t: Cache, key: Key)
    requires Valid(t)
    ensures var g := Get(t, key); g.found.Some? ==> g.found.value in t.items && t.items[g.found.value].linked
  {
    hide Shape, LruOk, CountsOk, RefsOk, DeletedOk, SpareOk, TimeOk, CasOk, LiveOk;
    if key in t.table {
      assert t.items[t.table[key]].linked;
      hide TableOk;
    }
  }

  lemma NotFoundFlushed(t: Cache, key: Key, a: Addr)
    requires a in t.items && 0 < t.oldestLive <= t.now && t.items[a].time <= t.oldestLive
    ensures Get(t, key).found != Some(a)
  {
  }

  /** A flush that finds every linked item older unlinks nothing. */
  lemma FlushIdle(s: Cache, oldest: nat)
    requires Valid(s) && forall a :: a in s.items && s.items[a].linked ==> oldest == 0 || s.items[a].time < oldest
    ensures DoFlush(s, oldest) == s.(oldestLive := oldest)
  {
    hide Core, LiveOk, FlushFrom;
    if oldest > 0 {
      var t := s.(oldestLive := oldest);
      ClockKeeps(s, t);
      FlushFromIdle(t, 0);
    }
  }

  lemma {:induction false} FlushFromIdle(t: Cache, c: nat)
    requires Valid(t) && forall a :: a in t.items && t.items[a].linked ==> t.items[a].time < t.oldestLive
    ensures FlushFrom(t, c) == t
    decreases LARGEST_ID - c
  {
    hide Core, LiveOk;
    if c < LARGEST_ID {
      LruLength(t);
      if t.lru[c] != [] {
        ListedInUse(t, c);
      }
      FlushFromIdle(t, c + 1);
    }
  }

  // A run in which a get brings back an item linked before flush_all: a set, ten seconds,
  // flush_all, and a second flush_all that is to take effect in a hundred seconds.

  const NOTHING := Grants(None, None)
  const SET_KEY := Begin("k", 0, 0, "v\r\n", 0, true, Grants(Some(1), None))

  function Start(): Cache {
    Empty([0, 1000], true)
  }

  lemma StartItem()
    ensures var s := Step(Start(), SET_KEY);
      s.items == map[1 := Item("k", 0, "v\r\n", 0, 0, 1, false, false, 1, 0, 0)] && s.held == multiset{1}
      && s.table == map[] && s.todelete == [] && s.now == 2 && s.oldestLive == 0 && s.casCounter == 0
      && |s.lru| == |s.sizes| == LARGEST_ID
  {
    assert Digits(0) == 1 && Digits(1) == 1;
    assert Footprint("k", 0, 3) == 67;
    assert Slabs.ClassId([0, 1000], 67) == 1;
  }

  lemma StoredItem()
    ensures var s := Step(Step(Start(), SET_KEY), Finish(1, Set, NOTHING));
      s.items == map[1 := Item("k", 0, "v\r\n", 2, 0, 0, true, false, 1, 1, 1)]
      && s.table == map["k" := 1] && s.todelete == [] && s.now == 2 && s.oldestLive == 0
  {
    StartItem();
    var s := Step(Start(), SET_KEY);
    hide Start, Empty, DoBegin;
    assert Get(s, "k") == Lookup(s, None, false);
    var t := Link(s, 1);
    assert Store(s, 1, Set, NOTHING) == (t, Stored);
    assert t.items == map[1 := Item("k", 0, "v\r\n", 2, 0, 1, true, false, 1, 1, 1)];
  }

  lemma RunOfFour(s: Cache, a: Op, b: Op, c: Op, d: Op)
    ensures Run(s, [a, b, c, d]) == Step(Step(Step(Step(s, a), b), c), d)
    ensures (Allowed(s, a) && Allowed(Step(s, a), b) && Allowed(Step(Step(s, a), b), c)
             && Allowed(Step(Step(Step(s, a), b), c), d)) ==> AllowedRun(s, [a, b, c, d])
  {
    hide Step, Allowed;
    var s1 := Step(s, a);
    var s2 := Step(s1, b);
    var s3 := Step(s2, c);
    assert [a, b, c, d][1..] == [b, c, d] && [b, c, d][1..] == [c, d] && [c, d][1..] == [d] && [d][1..] == [];
    assert Run(Step(s3, d), []) == Step(s3, d) && AllowedRun(Step(s3, d), []);
    assert Run(s3, [d]) == Step(s3, d) && (Allowed(s3, d) ==> AllowedRun(s3, [d]));
    assert Run(s2, [c, d]) == Step(s3, d) && (Allowed(s2, c) && Allowed(s3, d) ==> AllowedRun(s2, [c, d]));
    assert Run(s1, [b, c, d]) == Step(s3, d);
  }

  lemma StoredValid()
    ensures Valid(Step(Step(Start(), SET_KEY), Finish(1, Set, NOTHING)))
    ensures Allowed(Start(), SET_KEY) && Allowed(Step(Start(), SET_KEY), Finish(1, Set, NOTHING))
  {
    hide Valid, DoBegin, DoFinish, Settled, Empty;
    EmptyValid([0, 1000], true);
    StepKeeps(Start(), SET_KEY);
    StartItem();
    StepKeeps(Step(Start(), SET_KEY), Finish(1, Set, NOTHING));
  }

  lemma UnhidingState(stored: Cache, it: Item)
    requires Valid(stored) && it == Item("k", 0, "v\r\n", 2, 0, 0, true, false, 1, 1, 1)
    requires stored.items == map[1 := it] && stored.table == map["k" := 1] && stored.now == 2
    ensures var s := DoFlush(stored.(now := 12), 11);
      && s.now == 12 && s.items == stored.items
      && Get(s, "k").found == None && Get(DoFlush(s, 111), "k").found == Some(1)
  {
    hide Valid, DoFlush;
    var later := stored.(now := 12);
    ClockKeeps(stored, later);
    FlushIdle(later, 11);
    var flushed := later.(oldestLive := 11);
    ClockKeeps(later, flushed);
    FlushUnhides(flushed, 1, 111);
  }

  lemma UnhidingRun()
    ensures AllowedRun(Start(), [SET_KEY, Finish(1, Set, NOTHING), Tick(10), Flush(11)])
    ensures var s := Run(Start(), [SET_KEY, Finish(1, Set, NOTHING), Tick(10), Flush(11)]);
      && s.now == 12 && 1 in s.items && s.items[1].linkId == 1
      && Get(s, "k").found == None
      && Get(Step(s, Flush(111)), "k").found == Some(1)
  {
    hide Valid, Start, Step, Run, DoFlush, Get, AllowedRun;
    var stored := Step(Step(Start(), SET_KEY), Finish(1, Set, NOTHING));
    StoredItem();
    StoredValid();
    UnhidingState(stored, stored.items[1]);
    RunOfFour(Start(), SET_KEY, Finish(1, Set, NOTHING), Tick(10), Flush(11));
    TickIs(stored, 10);
    FlushIs(stored.(now := 12), 11);
    FlushIs(DoFlush(stored.(now := 12), 11), 111);
  }

  // A run in which a get returns an item that waits on todelete: a set at time 2, and a delete whose delay
  // of -2 realtime turns into 0.  A second such delete queues the item again.

  const DELAYED := Delete("k", -2, 0, true)

  lemma QueuedRun()
    ensures AllowedRun(Start(), [SET_KEY, Finish(1, Set, NOTHING), DELAYED, DELAYED])
    ensures var s := Step(Step(Step(Start(), SET_KEY), Finish(1, Set, NOTHING)), DELAYED);
      && s.todelete == [1] && 1 in s.items && s.items[1].deleted && Get(s, "k").found == Some(1)
    ensures var s := Run(Start(), [SET_KEY, Finish(1, Set, NOTHING), DELAYED, DELAYED]);
      && s.todelete == [1, 1] && 1 in s.items && s.items[1].refcount == 2 && Get(s, "k").found == Some(1)
  {
    hide Start, Step, Run, AllowedRun, Valid;
    var stored := Step(Step(Start(), SET_KEY), Finish(1, Set, NOTHING));
    StoredItem();
    StoredValid();
    RunOfFour(Start(), SET_KEY, Finish(1, Set, NOTHING), DELAYED, DELAYED);
    AllowedDelete(stored);
    AllowedDelete(Step(stored, DELAYED));
    DelayedStep(stored);
    DelayedStep(Step(stored, DELAYED));
  }

  lemma AllowedDelete(s: Cache)
    ensures Allowed(s, DELAYED)
  {
  }

  /** A delete of the one item with a delay that ends at 0. */
  lemma DelayedStep(s: Cache)
    requires s.table == map["k" := 1] && 1 in s.items && s.now == 2 && s.oldestLive == 0
    requires s.items[1].exptime == 0
    ensures var t := Step(s, DELAYED);
      && t.table == s.table && 1 in t.items && t.now == 2 && t.oldestLive == 0
      && t.items[1] == s.items[1].(exptime := 0, deleted := true, refcount := s.items[1].refcount + 1)
      && t.todelete == s.todelete + [1] && Get(t, "k").found == Some(1)
  {
    assert Realtime(-2, 0, 2) == 0;
    assert Get(s, "k") == Lookup(Take(s, 1), Some(1), false);
    assert Step(s, DELAYED) == Defer(Take(s, 1), 1, 0);
  }

  lemma FlushIs(s: Cache, oldest: nat)
    ensures Step(s, Flush(oldest)) == DoFlush(s, oldest)
  {
  }

  lemma TickIs(s: Cache, seconds: nat)
    ensures Step(s, Tick(seconds)) == s.(now := s.now + seconds)
  {
  }
}
