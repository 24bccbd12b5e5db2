/** Each step of the item cache keeps the invariant of module ItemCache. */
module ItemCacheSteps {
  import opened Seqs
  import opened ItemCache

  // ---- frames: what leaves the sums and the orderings alone ---------------------------

  lemma {:induction false} BytesFrame(m: map<Addr, Item>, m': map<Addr, Item>, list: seq<Addr>)
    requires forall b :: b in list ==> b in m && b in m' && Total(m[b]) == Total(m'[b])
    ensures Bytes(m, list) == Bytes(m', list)
  {
    if list != [] {
      BytesFrame(m, m', list[1..]);
    }
  }

  lemma {:induction false} AllBytesFrame(m: map<Addr, Item>, m': map<Addr, Item>, lru: seq<seq<Addr>>)
    requires forall c, b :: 0 <= c < |lru| && b in lru[c] ==> b in m && b in m' && Total(m[b]) == Total(m'[b])
    ensures AllBytes(m, lru) == AllBytes(m', lru)
  {
    if lru != [] {
      BytesFrame(m, m', lru[0]);
      AllBytesFrame(m, m', lru[1..]);
    }
  }

  lemma {:induction false} BytesWithout(m: map<Addr, Item>, list: seq<Addr>, a: Addr)
    requires a in list && a in m
    ensures Bytes(m, Without(list, a)) == Bytes(m, list) - Total(m[a])
  {
    if list[0] != a {
      BytesWithout(m, list[1..], a);
      assert Without(list, a)[1..] == Without(list[1..], a);
    }
  }

  lemma {:induction false} AllBytesUpdate(m: map<Addr, Item>, lru: seq<seq<Addr>>, c: nat, list: seq<Addr>)
    requires c < |lru|
    ensures AllBytes(m, lru[c := list]) == AllBytes(m, lru) - Bytes(m, lru[c]) + Bytes(m, list)
  {
    if c == 0 {
      assert lru[c := list][1..] == lru[1..];
    } else {
      AllBytesUpdate(m, lru[1..], c - 1, list);
      assert lru[c := list][1..] == lru[1..][c - 1 := list];
    }
  }

  lemma {:induction false} NewestFirstFrame(m: map<Addr, Item>, m': map<Addr, Item>, list: seq<Addr>)
    requires NewestFirst(m, list)
    requires forall b :: b in list ==> b in m && b in m' && m[b].time == m'[b].time
    ensures NewestFirst(m', list)
  {
    if list != [] {
      NewestFirstFrame(m, m', list[1..]);
    }
  }

  lemma {:induction false} NewestFirstWithout(m: map<Addr, Item>, list: seq<Addr>, a: Addr)
    requires NewestFirst(m, list) && NoDup(list)
    ensures NewestFirst(m, Without(list, a))
  {
    if list != [] && list[0] != a {
      NewestFirstWithout(m, list[1..], a);
      WithoutMembers(list[1..], a);
      assert Without(list, a)[1..] == Without(list[1..], a);
    }
  }

  // ---- steps that leave the linked items as they are --------------------------------------

  /** The same items are linked, and they agree on all a list, a sum or a CAS check reads. */
  ghost predicate Alike(m: map<Addr, Item>, m': map<Addr, Item>) {
    (forall b :: b in m && m[b].linked ==> b in m' && m'[b].linked)
    && (forall b :: b in m' && m'[b].linked ==>
          b in m && m[b].linked
          && m'[b] == m[b].(refcount := m'[b].refcount, deleted := m'[b].deleted, exptime := m'[b].exptime))
  }

  lemma AlikeTable(s: Cache, t: Cache)
    requires TableOk(s) && t.table == s.table && Alike(s.items, t.items)
    ensures TableOk(t)
  {
  }

  lemma AlikeLru(s: Cache, t: Cache)
    requires Shape(s) && Shape(t) && LruOk(s) && t.lru == s.lru && Alike(s.items, t.items)
    ensures LruOk(t)
  {
  }

  lemma AlikeCounts(s: Cache, t: Cache)
    requires Shape(s) && Shape(t) && LruOk(s) && CountsOk(s) && Alike(s.items, t.items)
    requires t.lru == s.lru && t.sizes == s.sizes && t.table == s.table
    requires t.currItems == s.currItems && t.currBytes == s.currBytes
    ensures CountsOk(t)
  {
    AllBytesFrame(s.items, t.items, s.lru);
  }

  lemma AlikeTime(s: Cache, t: Cache)
    requires Shape(s) && Shape(t) && LruOk(s) && TimeOk(s) && Alike(s.items, t.items)
    requires t.lru == s.lru && t.now == s.now
    ensures TimeOk(t)
  {
    forall c | 0 <= c < LARGEST_ID
      ensures NewestFirst(t.items, t.lru[c])
    {
      NewestFirstFrame(s.items, t.items, s.lru[c]);
    }
  }

  lemma AlikeCas(s: Cache, t: Cache)
    requires CasOk(s) && Alike(s.items, t.items) && t.casCounter == s.casCounter && t.versions == s.versions
    ensures CasOk(t)
  {
  }

  lemma AlikeKeeps(s: Cache, t: Cache)
    requires Core(s) && Shape(t) && Alike(s.items, t.items)
    requires t.table == s.table && t.lru == s.lru && t.sizes == s.sizes && t.now == s.now
    requires t.currItems == s.currItems && t.currBytes == s.currBytes
    requires t.casCounter == s.casCounter && t.versions == s.versions
    requires RefsOk(t) && DeletedOk(t) && SpareOk(t)
    ensures Core(t)
  {
    hide Shape, TableOk, LruOk, CountsOk, RefsOk, DeletedOk, SpareOk, TimeOk, CasOk, Alike;
    AlikeTable(s, t);
    AlikeLru(s, t);
    AlikeCounts(s, t);
    AlikeTime(s, t);
    AlikeCas(s, t);
  }

  lemma TakeRest(s: Cache, a: Addr)
    requires Shape(s) && RefsOk(s) && DeletedOk(s) && SpareOk(s) && LiveOk(s) && a in s.items
    ensures var t := Take(s, a);
      Shape(t) && RefsOk(t) && DeletedOk(t) && SpareOk(t) && LiveOk(t) && Alike(s.items, t.items)
  {
    TakeSmall(s, a);
    TakeQueue(s, a);
    hide Shape, RefsOk, DeletedOk, SpareOk, LiveOk, Alike;
  }

  lemma TakeSmall(s: Cache, a: Addr)
    requires Shape(s) && SpareOk(s) && LiveOk(s) && a in s.items
    ensures var t := Take(s, a); Shape(t) && SpareOk(t) && LiveOk(t) && Alike(s.items, t.items)
  {
  }

  lemma TakeQueue(s: Cache, a: Addr)
    requires RefsOk(s) && DeletedOk(s) && a in s.items
    ensures var t := Take(s, a); RefsOk(t) && DeletedOk(t)
  {
    hide NoDup;
  }

  lemma TakeKeeps(s: Cache, a: Addr)
    requires Valid(s) && a in s.items
    ensures Valid(Take(s, a))
  {
    hide Shape, TableOk, LruOk, CountsOk, RefsOk, DeletedOk, SpareOk, TimeOk, CasOk, LiveOk, Alike;
    TakeRest(s, a);
    AlikeKeeps(s, Take(s, a));
  }

  lemma FreeRest(s: Cache, a: Addr)
    requires Shape(s) && RefsOk(s) && DeletedOk(s) && SpareOk(s)
    requires a in s.items && !s.items[a].linked && s.items[a].refcount == 0
    ensures var t := Free(s, a);
      Shape(t) && RefsOk(t) && DeletedOk(t) && SpareOk(t) && Alike(s.items, t.items)
  {
    FreeRefs(s, a);
    FreeSmall(s, a);
    hide *;
  }

  lemma FreeRefs(s: Cache, a: Addr)
    requires RefsOk(s) && DeletedOk(s) && a in s.items && s.items[a].refcount == 0
    ensures RefsOk(Free(s, a)) && DeletedOk(Free(s, a))
  {
    assert a !in multiset(s.todelete);
  }

  lemma FreeSmall(s: Cache, a: Addr)
    requires Shape(s) && SpareOk(s) && a in s.items && !s.items[a].linked
    ensures var t := Free(s, a); Shape(t) && SpareOk(t) && Alike(s.items, t.items)
  {
  }

  lemma FreeKeeps(s: Cache, a: Addr)
    requires Core(s) && a in s.items && !s.items[a].linked && s.items[a].refcount == 0
    ensures Core(Free(s, a))
  {
    hide Shape, TableOk, LruOk, CountsOk, RefsOk, DeletedOk, SpareOk, TimeOk, CasOk, Alike;
    FreeRest(s, a);
    AlikeKeeps(s, Free(s, a));
  }

  lemma DropRefs(s: Cache, a: Addr)
    requires RefsOk(s) && a in s.items && s.held[a] > 0
    ensures s.items[a].refcount > 0 && RefsOk(Drop(s, a))
  {
  }

  lemma DropRest(s: Cache, a: Addr)
    requires Shape(s) && DeletedOk(s) && SpareOk(s) && a in s.items && s.items[a].refcount > 0
    ensures var t := Drop(s, a); Shape(t) && DeletedOk(t) && SpareOk(t) && Alike(s.items, t.items)
  {
  }

  lemma DropKeeps(s: Cache, a: Addr)
    requires Core(s) && a in s.items && s.held[a] > 0
    ensures Core(Drop(s, a))
  {
    hide Shape, TableOk, LruOk, CountsOk, RefsOk, DeletedOk, SpareOk, TimeOk, CasOk, Alike;
    DropRefs(s, a);
    DropRest(s, a);
    AlikeKeeps(s, Drop(s, a));
  }

  lemma RemoveKeeps(s: Cache, a: Addr)
    requires Valid(s) && a in s.items && s.held[a] > 0
    ensures Valid(Remove(s, a))
  {
    hide Core, LiveOk;
    DropKeeps(s, a);
    RemoveLive(s, a);
    if Drop(s, a).items[a].refcount == 0 && !s.items[a].linked {
      FreeKeeps(Drop(s, a), a);
    }
  }

  lemma RemoveLive(s: Cache, a: Addr)
    requires LiveOk(s) && a in s.items
    ensures LiveOk(Remove(s, a))
  {
  }

  // ---- linking and unlinking --------------------------------------------------------------

  lemma LinkTable(s: Cache, a: Addr)
    requires Shape(s) && TableOk(s) && a in s.items && !s.items[a].linked && s.items[a].key !in s.table
    ensures Shape(Link(s, a)) && TableOk(Link(s, a))
  {
  }

  lemma LinkLru(s: Cache, a: Addr)
    requires Shape(s) && LruOk(s) && a in s.items && !s.items[a].linked
    ensures var t := Link(s, a); Shape(t) && LruOk(t)
  {
    var t := Link(s, a);
    var c := s.items[a].clsid;
    assert t.lru[c][1..] == s.lru[c];
  }

  lemma LinkTime(s: Cache, a: Addr)
    requires Shape(s) && LruOk(s) && TimeOk(s) && a in s.items && !s.items[a].linked
    ensures var t := Link(s, a); Shape(t) && TimeOk(t)
  {
    var t := Link(s, a);
    var c := s.items[a].clsid;
    assert t.lru[c][1..] == s.lru[c];
    forall d | 0 <= d < LARGEST_ID
      ensures NewestFirst(t.items, t.lru[d])
    {
      NewestFirstFrame(s.items, t.items, s.lru[d]);
    }
  }

  lemma LinkCounts(s: Cache, a: Addr)
    requires Shape(s) && LruOk(s) && CountsOk(s)
    requires a in s.items && !s.items[a].linked && s.items[a].key !in s.table
    ensures var t := Link(s, a); Shape(t) && CountsOk(t)
  {
    var t := Link(s, a);
    var c := s.items[a].clsid;
    assert t.lru[c][1..] == s.lru[c];
    AllBytesFrame(s.items, t.items, s.lru);
    AllBytesUpdate(t.items, s.lru, c, t.lru[c]);
  }

  lemma LinkRest(s: Cache, a: Addr)
    requires Shape(s) && RefsOk(s) && DeletedOk(s) && SpareOk(s) && LiveOk(s) && a in s.items
    ensures var t := Link(s, a); RefsOk(t) && DeletedOk(t) && SpareOk(t) && LiveOk(t)
  {
    LinkQueue(s, a);
    hide RefsOk, DeletedOk;
  }

  lemma LinkQueue(s: Cache, a: Addr)
    requires Shape(s) && RefsOk(s) && DeletedOk(s) && a in s.items
    ensures var t := Link(s, a); RefsOk(t) && DeletedOk(t)
  {
    LinkRefs(s, a);
    hide RefsOk;
  }

  lemma LinkRefs(s: Cache, a: Addr)
    requires Shape(s) && RefsOk(s) && a in s.items
    ensures RefsOk(Link(s, a))
  {
  }

  lemma LinkCas(s: Cache, a: Addr)
    requires Shape(s) && CasOk(s) && a in s.items
    ensures CasOk(Link(s, a))
  {
  }

  lemma LinkKeeps(s: Cache, a: Addr)
    requires Valid(s) && a in s.items && !s.items[a].linked && s.items[a].key !in s.table
    ensures Valid(Link(s, a))
  {
    assert s.items[a].clsid < |s.lru| == |s.sizes|;
    hide Shape, TableOk, LruOk, CountsOk, RefsOk, DeletedOk, SpareOk, TimeOk, CasOk, LiveOk, Link;
    LinkTable(s, a);
    LinkLru(s, a);
    LinkTime(s, a);
    LinkCounts(s, a);
    LinkRest(s, a);
    LinkCas(s, a);
  }

  lemma DetachTable(s: Cache, a: Addr)
    requires Shape(s) && TableOk(s) && a in s.items && s.items[a].linked
    ensures Shape(Detach(s, a)) && TableOk(Detach(s, a))
  {
  }

  lemma DetachLru(s: Cache, a: Addr)
    requires Shape(s) && LruOk(s) && a in s.items && s.items[a].linked
    ensures var t := Detach(s, a); Shape(t) && LruOk(t)
  {
    WithoutMembers(s.lru[s.items[a].clsid], a);
  }

  lemma DetachTime(s: Cache, a: Addr)
    requires Shape(s) && LruOk(s) && TimeOk(s) && a in s.items && s.items[a].linked
    ensures var t := Detach(s, a); Shape(t) && TimeOk(t)
  {
    var t := Detach(s, a);
    forall d | 0 <= d < LARGEST_ID
      ensures NewestFirst(t.items, t.lru[d])
    {
      NewestFirstFrame(s.items, t.items, s.lru[d]);
      NewestFirstWithout(t.items, s.lru[d], a);
    }
  }

  lemma DetachCounts(s: Cache, a: Addr)
    requires Shape(s) && TableOk(s) && LruOk(s) && CountsOk(s) && a in s.items && s.items[a].linked
    ensures var t := Detach(s, a); Shape(t) && CountsOk(t)
  {
    DetachBytes(s, a);
    DetachSizes(s, a);
    hide AllBytes, Without, TableOk, LruOk;
  }

  lemma DetachSizes(s: Cache, a: Addr)
    requires Shape(s) && TableOk(s) && LruOk(s) && CountsOk(s) && a in s.items && s.items[a].linked
    ensures var t := Detach(s, a);
      && Shape(t) && t.currItems == |t.table|
      && forall c :: 0 <= c < LARGEST_ID ==> t.sizes[c] == |t.lru[c]|
  {
    hide AllBytes, Without, NoDup;
    WithoutMembers(s.lru[s.items[a].clsid], a);
    KeyGone(s.table, s.items[a].key);
  }

  lemma KeyGone(m: map<Key, Addr>, k: Key)
    requires k in m
    ensures |m - {k}| == |m| - 1
  {
    assert m.Keys == (m - {k}).Keys + {k};
  }

  lemma DetachBytes(s: Cache, a: Addr)
    requires Shape(s) && LruOk(s) && a in s.items && s.items[a].linked
    ensures var t := Detach(s, a); AllBytes(t.items, t.lru) == AllBytes(s.items, s.lru) - Total(s.items[a])
  {
    var t := Detach(s, a);
    var c := s.items[a].clsid;
    AllBytesFrame(s.items, t.items, s.lru);
    AllBytesUpdate(t.items, s.lru, c, t.lru[c]);
    BytesWithout(t.items, s.lru[c], a);
  }

  lemma DetachRest(s: Cache, a: Addr)
    requires Shape(s) && RefsOk(s) && DeletedOk(s) && SpareOk(s) && a in s.items
    ensures var t := Detach(s, a); RefsOk(t) && DeletedOk(t) && SpareOk(t)
  {
    hide *;
    DetachRefs(s, a);
    DetachDeleted(s, a);
    DetachSpare(s, a);
  }

  lemma DetachRefs(s: Cache, a: Addr)
    requires Shape(s) && RefsOk(s) && a in s.items
    ensures RefsOk(Detach(s, a))
  {
  }

  lemma DetachDeleted(s: Cache, a: Addr)
    requires Shape(s) && DeletedOk(s) && a in s.items
    ensures DeletedOk(Detach(s, a))
  {
  }

  lemma DetachSpare(s: Cache, a: Addr)
    requires Shape(s) && SpareOk(s) && a in s.items
    ensures SpareOk(Detach(s, a))
  {
  }

  lemma DetachCas(s: Cache, a: Addr)
    requires Shape(s) && CasOk(s) && a in s.items
    ensures CasOk(Detach(s, a))
  {
  }

  lemma DetachKeeps(s: Cache, a: Addr)
    requires Core(s) && a in s.items && s.items[a].linked
    ensures Core(Detach(s, a))
  {
    assert s.items[a].clsid < |s.lru| == |s.sizes|;
    hide Shape, TableOk, LruOk, CountsOk, RefsOk, DeletedOk, SpareOk, TimeOk, CasOk, Detach;
    DetachTable(s, a);
    DetachLru(s, a);
    DetachTime(s, a);
    DetachCounts(s, a);
    DetachRest(s, a);
    DetachCas(s, a);
  }

  lemma UnlinkKeeps(s: Cache, a: Addr)
    requires Valid(s) && a in s.items
    ensures Valid(Unlink(s, a))
  {
    assert s.items[a].clsid < |s.lru| == |s.sizes|;
    UnlinkLive(s, a);
    hide Core, LiveOk;
    if s.items[a].linked {
      DetachKeeps(s, a);
      if s.items[a].refcount == 0 {
        FreeKeeps(Detach(s, a), a);
      }
    }
  }

  lemma UnlinkLive(s: Cache, a: Addr)
    requires Shape(s) && LiveOk(s) && a in s.items
    ensures LiveOk(Unlink(s, a))
  {
  }

  // ---- moving an item to the head of its list ----------------------------------------------

  lemma UpdateLru(s: Cache, a: Addr)
    requires Shape(s) && LruOk(s) && a in s.items
    ensures var t := Update(s, a);
      Shape(t) && LruOk(t)
      && forall c :: 0 <= c < LARGEST_ID ==> |t.lru[c]| == |s.lru[c]|
  {
    var t := Update(s, a);
    var c := s.items[a].clsid;
    WithoutMembers(s.lru[c], a);
    assert t != s ==> t.lru[c][1..] == Without(s.lru[c], a);
  }

  lemma UpdateTime(s: Cache, a: Addr)
    requires Shape(s) && LruOk(s) && TimeOk(s) && a in s.items && s.items[a].linked
    requires UpdateDue(s.items[a].time, s.now)
    ensures var t := Update(s, a); Shape(t) && TimeOk(t)
  {
    var t := Update(s, a);
    var c := s.items[a].clsid;
    forall d | 0 <= d < LARGEST_ID
      ensures NewestFirst(t.items, t.lru[d])
    {
      if d == c {
        UpdateOwnList(s, a);
      } else {
        NewestFirstFrame(s.items, t.items, s.lru[d]);
      }
    }
  }

  /** The list the item is moved within. */
  lemma UpdateOwnList(s: Cache, a: Addr)
    requires Shape(s) && LruOk(s) && TimeOk(s) && a in s.items && s.items[a].linked
    requires UpdateDue(s.items[a].time, s.now)
    ensures var t := Update(s, a); NewestFirst(t.items, t.lru[s.items[a].clsid])
  {
    var t := Update(s, a);
    var c := s.items[a].clsid;
    WithoutMembers(s.lru[c], a);
    assert t.lru[c][1..] == Without(s.lru[c], a);
    NewestFirstWithout(s.items, s.lru[c], a);
    NewestFirstFrame(s.items, t.items, Without(s.lru[c], a));
  }

  lemma UpdateCounts(s: Cache, a: Addr)
    requires Shape(s) && LruOk(s) && CountsOk(s) && a in s.items && s.items[a].linked
    requires UpdateDue(s.items[a].time, s.now)
    ensures var t := Update(s, a); Shape(t) && CountsOk(t)
  {
    var t := Update(s, a);
    var c := s.items[a].clsid;
    UpdateLru(s, a);
    assert t.lru[c][1..] == Without(s.lru[c], a);
    AllBytesFrame(s.items, t.items, s.lru);
    AllBytesUpdate(t.items, s.lru, c, t.lru[c]);
    BytesWithout(t.items, s.lru[c], a);
  }

  lemma UpdateRest(s: Cache, a: Addr)
    requires Shape(s) && RefsOk(s) && SpareOk(s) && LiveOk(s) && a in s.items
    ensures var t := Update(s, a); RefsOk(t) && SpareOk(t) && LiveOk(t)
  {
    hide *;
    UpdateRefs(s, a);
    UpdateSpare(s, a);
  }

  lemma UpdateRefs(s: Cache, a: Addr)
    requires RefsOk(s) && a in s.items
    ensures RefsOk(Update(s, a))
  {
  }

  lemma UpdateSpare(s: Cache, a: Addr)
    requires SpareOk(s) && LiveOk(s) && a in s.items
    ensures SpareOk(Update(s, a)) && LiveOk(Update(s, a))
  {
  }

  lemma UpdateDeleted(s: Cache, a: Addr)
    requires Shape(s) && DeletedOk(s) && a in s.items
    ensures DeletedOk(Update(s, a))
  {
  }

  lemma UpdateTable(s: Cache, a: Addr)
    requires Shape(s) && TableOk(s) && CasOk(s) && a in s.items
    ensures TableOk(Update(s, a)) && CasOk(Update(s, a))
  {
    UpdateCas(s, a);
    hide CasOk;
  }

  lemma UpdateCas(s: Cache, a: Addr)
    requires CasOk(s) && a in s.items
    ensures CasOk(Update(s, a))
  {
  }

  lemma UpdateKeeps(s: Cache, a: Addr)
    requires Valid(s) && a in s.items
    ensures Valid(Update(s, a))
  {
    assert s.items[a].clsid < |s.lru|;
    hide Shape, TableOk, LruOk, CountsOk, RefsOk, DeletedOk, SpareOk, TimeOk, CasOk, LiveOk;
    if UpdateDue(s.items[a].time, s.now) && s.items[a].linked {
      UpdateLru(s, a);
      UpdateTime(s, a);
      UpdateCounts(s, a);
      UpdateRest(s, a);
      UpdateDeleted(s, a);
      UpdateTable(s, a);
    }
  }
}
