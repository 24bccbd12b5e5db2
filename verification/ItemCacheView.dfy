/** The cache as its clients see it, a map from keys to entries, and what each step does
    to that map and to the references callers hold. */
module ItemCacheView {
  import opened Seqs
  import opened ItemCache
  import opened ItemCacheSteps
  import opened ItemCacheOps
  import Slabs

  datatype Entry = Entry(flags: int, data: string, exptime: nat, time: nat, deleted: bool, casId: nat)

  function EntryOf(it: Item): Entry {
    Entry(it.flags, it.data, it.exptime, it.time, it.deleted, it.casId)
  }

  function View(s: Cache): map<Key, Entry> {
    map k | k in s.table && s.table[k] in s.items :: EntryOf(s.items[s.table[k]])
  }

  // ---- what a run of steps never undoes ----------------------------------------------------

  /** An item linked since before s is one that s linked; its time never goes back, and if
      flush_all hid it, its time has not been refreshed.  Newer links carry newer times. */
  ghost predicate OldLinks(s: Cache, t: Cache) {
    s.casCounter <= t.casCounter
    && forall a :: a in t.items && t.items[a].linked ==>
         if t.items[a].linkId > s.casCounter then t.items[a].time >= s.now
         else
           a in s.items && s.items[a].linked && s.items[a].linkId == t.items[a].linkId
           && s.items[a].time <= t.items[a].time
           && (Flushed(s, s.items[a]) ==> t.items[a].time == s.items[a].time)
  }

  /** A CAS id never stands for anything else later. */
  ghost predicate OldVersions(s: Cache, t: Cache) {
    forall v :: v in s.versions ==> v in t.versions && t.versions[v] == s.versions[v]
  }

  /** No chunk is lost: it stays in use or is spare. */
  ghost predicate OldChunks(s: Cache, t: Cache) {
    forall a :: a in s.items || s.spare[a] > 0 ==> a in t.items || t.spare[a] > 0
  }

  ghost predicate History(s: Cache, t: Cache) {
    OldLinks(s, t) && OldVersions(s, t) && OldChunks(s, t)
  }

  /** t comes after s by steps on items alone. */
  ghost predicate Onward(s: Cache, t: Cache) {
    t.now == s.now && t.oldestLive == s.oldestLive && t.todelete == s.todelete
    && t.classes == s.classes && t.evictToFree == s.evictToFree
    && History(s, t)
  }

  lemma OnwardTrans(s: Cache, t: Cache, u: Cache)
    requires Onward(s, t) && Onward(t, u)
    ensures Onward(s, u)
  {
    assert History(s, u) by {
      LinksTrans(s, t, u);
      hide OldLinks;
    }
  }

  lemma OnwardSelf(s: Cache)
    requires CasOk(s)
    ensures Onward(s, s)
  {
  }

  lemma LinksTrans(s: Cache, t: Cache, u: Cache)
    requires OldLinks(s, t) && OldLinks(t, u) && t.now == s.now && t.oldestLive == s.oldestLive
    ensures OldLinks(s, u)
  {
  }

  lemma TakeView(s: Cache, a: Addr)
    requires Shape(s) && TableOk(s) && CasOk(s) && a in s.items
    ensures var t := Take(s, a); View(t) == View(s) && Onward(s, t)
  {
    hide History, CasOk;
    TakeHistory(s, a);
  }

  lemma RemoveView(s: Cache, a: Addr)
    requires Shape(s) && TableOk(s) && CasOk(s) && a in s.items
    ensures var t := Remove(s, a); View(t) == View(s) && Onward(s, t)
  {
    hide History, CasOk, Remove;
    RemoveHistory(s, a);
    RemoveItems(s, a);
  }

  /** All of an item but its count stays, and it stays at all if it is linked. */
  ghost predicate LosesUnlinked(s: Cache, t: Cache) {
    && t == s.(items := t.items, spare := t.spare, held := t.held)
    && (forall b :: b in t.items ==> b in s.items && t.items[b] == s.items[b].(refcount := t.items[b].refcount))
    && (forall b :: b in s.items ==> b in t.items || (!s.items[b].linked && t.spare[b] > 0))
    && (forall b :: s.spare[b] > 0 ==> t.spare[b] > 0)
  }

  lemma RemoveItems(s: Cache, a: Addr)
    ensures LosesUnlinked(s, Remove(s, a))
  {
    hide LosesUnlinked, Drop, Free;
    var t := Drop(s, a);
    DropItems(s, a);
    if a in t.items && t.items[a].refcount == 0 && !t.items[a].linked {
      FreeItems(t, a);
      LosesTrans(s, t, Free(t, a));
    }
  }

  lemma DropItems(s: Cache, a: Addr)
    ensures LosesUnlinked(s, Drop(s, a))
  {
  }

  lemma FreeItems(s: Cache, a: Addr)
    requires a in s.items && !s.items[a].linked
    ensures LosesUnlinked(s, Free(s, a))
  {
  }

  lemma LosesTrans(s: Cache, t: Cache, u: Cache)
    requires LosesUnlinked(s, t) && LosesUnlinked(t, u)
    ensures LosesUnlinked(s, u)
  {
  }

  lemma UnlinkView(s: Cache, a: Addr)
    requires Shape(s) && TableOk(s) && CasOk(s) && a in s.items && s.items[a].linked
    ensures var t := Unlink(s, a); View(t) == View(s) - {s.items[a].key} && Onward(s, t)
  {
    hide History, CasOk;
    UnlinkHistory(s, a);
    var t := Unlink(s, a);
    forall k | k in s.table && k != s.items[a].key
      ensures s.table[k] in s.items && s.table[k] in t.items && t.items[s.table[k]] == s.items[s.table[k]]
    {
      assert s.items[s.table[k]].key == k;
    }
    hide TableOk, Shape;
    ViewWithout(s, t, s.items[a].key);
  }

  lemma ViewWithout(s: Cache, t: Cache, key: Key)
    requires t.table == s.table - {key}
    requires forall k :: k in s.table && k != key ==>
      s.table[k] in s.items && s.table[k] in t.items && t.items[s.table[k]] == s.items[s.table[k]]
    ensures View(t) == View(s) - {key}
  {
  }

  lemma LinkView(s: Cache, a: Addr)
    requires Shape(s) && TableOk(s) && CasOk(s) && a in s.items && !s.items[a].linked && s.items[a].key !in s.table
    ensures var t := Link(s, a); var it := s.items[a];
      View(t) == View(s)[it.key := Entry(it.flags, it.data, it.exptime, s.now, it.deleted, s.casCounter + 1)]
      && Onward(s, t)
  {
    hide History, CasOk;
    LinkHistory(s, a);
  }

  lemma LinkHistory(s: Cache, a: Addr)
    requires CasOk(s) && a in s.items
    ensures History(s, Link(s, a))
  {
  }

  lemma UnlinkHistory(s: Cache, a: Addr)
    requires CasOk(s) && a in s.items
    ensures History(s, Unlink(s, a))
  {
  }

  lemma TakeHistory(s: Cache, a: Addr)
    requires CasOk(s)
    ensures History(s, Take(s, a))
  {
  }

  lemma RemoveHistory(s: Cache, a: Addr)
    requires CasOk(s)
    ensures History(s, Remove(s, a))
  {
    hide Remove;
    RemoveItems(s, a);
  }

  lemma UpdateHistory(s: Cache, a: Addr)
    requires CasOk(s) && a in s.items && !Flushed(s, s.items[a]) && s.items[a].time <= s.now
    ensures History(s, Update(s, a))
  {
  }

  lemma UpdateView(s: Cache, a: Addr)
    requires Shape(s) && TableOk(s) && a in s.items && s.items[a].linked && !Flushed(s, s.items[a])
    requires CasOk(s) && s.items[a].time <= s.now
    ensures var t := Update(s, a); var it := s.items[a];
      View(t) == (if UpdateDue(it.time, s.now) then View(s)[it.key := EntryOf(it).(time := s.now)] else View(s))
      && Onward(s, t)
  {
    hide History, CasOk;
    UpdateHistory(s, a);
  }
}
