/** The incrementally expanding hash table of assoc.c.  While it expands, a key lives in the old
    table if its old bucket has not been migrated yet, and in the primary table otherwise.  The
    hash function and the key of an item are parameters: nothing here depends on them. */
module Assoc {
  import opened Seqs

  type Key = string
  type Addr = int

  /** The key of an item, and the hash of a key. */
  datatype Env = Env(key: Addr -> Key, hash: Key -> nat)

  datatype Table = Table(
    power: nat,                  // hashpower
    expanding: bool,
    bucket: nat,                 // expand_bucket
    primary: seq<seq<Addr>>,     // the chains of primary_hashtable
    old_: seq<seq<Addr>>,        // the chains of old_hashtable
    count: int)                  // hash_items

  /** hashsize */
  function Pow2(n: nat): (p: nat)
    ensures p > 0
  {
    if n == 0 then 1 else 2 * Pow2(n - 1)
  }

  function Half(t: Table): nat {
    if t.power == 0 then 0 else t.power - 1
  }

  /** Where a key lives: in the old table or not, and in which bucket. */
  predicate InOld(e: Env, t: Table, k: Key) {
    t.expanding && e.hash(k) % Pow2(Half(t)) >= t.bucket
  }

  function Bucket(e: Env, t: Table, k: Key): nat {
    if InOld(e, t, k) then e.hash(k) % Pow2(Half(t)) else e.hash(k) % Pow2(t.power)
  }

  function Home(e: Env, t: Table, k: Key): seq<Addr> {
    var b := Bucket(e, t, k);
    if InOld(e, t, k) then (if b < |t.old_| then t.old_[b] else [])
    else (if b < |t.primary| then t.primary[b] else [])
  }

  function SetHome(e: Env, t: Table, k: Key, chain: seq<Addr>): Table {
    var b := Bucket(e, t, k);
    if InOld(e, t, k) then (if b < |t.old_| then t.(old_ := t.old_[b := chain]) else t)
    else (if b < |t.primary| then t.(primary := t.primary[b := chain]) else t)
  }

  /** The walk of assoc_find down a chain. */
  function Search(e: Env, chain: seq<Addr>, k: Key): Option<Addr> {
    if chain == [] then None
    else if e.key(chain[0]) == k then Some(chain[0])
    else Search(e, chain[1..], k)
  }

  /** assoc_find */
  function Find(e: Env, t: Table, k: Key): Option<Addr> {
    Search(e, Home(e, t, k), k)
  }

  /** One item moves to the head of its new chain. */
  function Push(e: Env, t: Table, a: Addr): Table {
    var b := e.hash(e.key(a)) % Pow2(t.power);
    if b < |t.primary| then t.(primary := t.primary[b := [a] + t.primary[b]]) else t
  }

  function PushAll(e: Env, t: Table, chain: seq<Addr>): Table
    decreases |chain|
  {
    if chain == [] then t else PushAll(e, Push(e, t, chain[0]), chain[1..])
  }

  /** do_assoc_move_next_bucket */
  function MoveNext(e: Env, t: Table): Table {
    if !t.expanding || t.bucket >= |t.old_| then t
    else
      var moved := PushAll(e, t, t.old_[t.bucket]);
      var emptied := moved.(old_ := t.old_[t.bucket := []], bucket := t.bucket + 1);
      if emptied.bucket == Pow2(Half(t)) then emptied.(expanding := false, old_ := []) else emptied
  }

  /** assoc_expand; memory says whether there was room for the larger table */
  function Expand(e: Env, t: Table, memory: bool): Table {
    if memory then
      MoveNext(e, Table(t.power + 1, true, 0, seq(Pow2(t.power + 1), _ => []), t.primary, t.count))
    else t
  }

  predicate Overfull(t: Table) {
    !t.expanding && t.count > Pow2(t.power) * 3 / 2
  }

  /** assoc_insert */
  function Insert(e: Env, t: Table, a: Addr, memory: bool): Table {
    var u := SetHome(e, t, e.key(a), [a] + Home(e, t, e.key(a))).(count := t.count + 1);
    if Overfull(u) then Expand(e, u, memory) else u
  }

  /** A chain without the first item of key k. */
  function Unchained(e: Env, chain: seq<Addr>, k: Key): seq<Addr> {
    if chain == [] then []
    else if e.key(chain[0]) == k then chain[1..]
    else [chain[0]] + Unchained(e, chain[1..], k)
  }

  /** assoc_delete */
  function Delete(e: Env, t: Table, k: Key): Table {
    if Find(e, t, k).None? then t
    else SetHome(e, t, k, Unchained(e, Home(e, t, k), k)).(count := t.count - 1)
  }

  // ---- the invariant ------------------------------------------------------------------------

  ghost predicate DistinctKeys(e: Env, chain: seq<Addr>) {
    forall i, j :: 0 <= i < j < |chain| ==> e.key(chain[i]) != e.key(chain[j])
  }

  ghost predicate Sizes(t: Table) {
    && |t.primary| == Pow2(t.power)
    && (t.expanding ==> t.power > 0 && |t.old_| == Pow2(Half(t)) && t.bucket < Pow2(Half(t)))
    && (!t.expanding ==> t.old_ == [])
  }

  ghost predicate PrimaryOk(e: Env, t: Table) {
    && (forall b :: 0 <= b < |t.primary| ==> DistinctKeys(e, t.primary[b]))
    && (forall b, a :: 0 <= b < |t.primary| && a in t.primary[b] ==>
          !InOld(e, t, e.key(a)) && Bucket(e, t, e.key(a)) == b)
  }

  ghost predicate OldOk(e: Env, t: Table) {
    && (forall b :: 0 <= b < |t.old_| ==> DistinctKeys(e, t.old_[b]))
    && (forall b, a :: 0 <= b < |t.old_| && a in t.old_[b] ==>
          InOld(e, t, e.key(a)) && Bucket(e, t, e.key(a)) == b)
  }

  /** Sizes, and that every item is in the chain where a lookup of its key will look. */
  ghost predicate Valid(e: Env, t: Table) {
    Sizes(t) && PrimaryOk(e, t) && OldOk(e, t)
  }

  /** The items in the table. */
  ghost predicate Holds(t: Table, a: Addr) {
    (exists b :: 0 <= b < |t.primary| && a in t.primary[b]) || (exists b :: 0 <= b < |t.old_| && a in t.old_[b])
  }

  // ---- arithmetic of the masks --------------------------------------------------------------

  lemma ModUnique(x: nat, m: nat, q: int, r: nat)
    requires m > 0 && x == q * m + r && r < m
    ensures x % m == r
  {
    var d := q - x / m;
    assert x == (x / m) * m + x % m;
    assert d * m == x % m - r && (-d) * m == -(d * m);
    if d >= 1 {
      MulAtLeast(d, m);
    } else if d <= -1 {
      MulAtLeast(-d, m);
    }
  }

  lemma MulAtLeast(d: nat, m: nat)
    requires d >= 1
    ensures d * m >= m
  {
    assert d * m == m + (d - 1) * m;
  }

  /** (h mod 2m) mod m == h mod m: a bucket splits in two. */
  lemma ModHalf(h: nat, m: nat)
    requires m > 0
    ensures (h % (2 * m)) % m == h % m
  {
    var q, r := h / (2 * m), h % (2 * m);
    assert h == q * (2 * m) + r;
    assert q * (2 * m) == (2 * q) * m;
    if r < m {
      ModUnique(h, m, 2 * q, r);
      ModUnique(r, m, 0, r);
    } else {
      assert (2 * q + 1) * m == (2 * q) * m + m;
      ModUnique(h, m, 2 * q + 1, r - m);
      ModUnique(r, m, 1, r - m);
    }
  }

  /** The bucket of a key in the old table is that of its new bucket. */
  lemma SplitBucket(e: Env, t: Table, k: Key)
    requires t.power > 0
    ensures (e.hash(k) % Pow2(t.power)) % Pow2(Half(t)) == e.hash(k) % Pow2(Half(t))
  {
    ModHalf(e.hash(k), Pow2(Half(t)));
  }

  // ---- lookups ------------------------------------------------------------------------------

  lemma {:induction false} SearchIff(e: Env, chain: seq<Addr>, k: Key)
    requires DistinctKeys(e, chain)
    ensures var r := Search(e, chain, k);
      && (r.Some? ==> r.value in chain && e.key(r.value) == k)
      && forall a :: a in chain && e.key(a) == k ==> r == Some(a)
  {
    if chain != [] && e.key(chain[0]) != k {
      SearchIff(e, chain[1..], k);
    }
  }

  lemma HomeHolds(e: Env, t: Table, a: Addr)
    requires Valid(e, t)
    ensures Holds(t, a) <==> a in Home(e, t, e.key(a))
  {
    ModRange(e.hash(e.key(a)), Pow2(t.power));
    ModRange(e.hash(e.key(a)), Pow2(Half(t)));
    hide Pow2, DistinctKeys;
  }

  lemma ModRange(h: nat, m: nat)
    requires m > 0
    ensures 0 <= h % m < m
  {
  }

  lemma HomeDistinct(e: Env, t: Table, k: Key)
    requires Valid(e, t)
    ensures DistinctKeys(e, Home(e, t, k))
    ensures forall a :: a in Home(e, t, k) ==> Home(e, t, e.key(a)) == Home(e, t, k)
  {
    hide Pow2, Half;
  }

  /** A lookup finds an item exactly if the table holds it and it has that key. */
  lemma FindIff(e: Env, t: Table, k: Key, a: Addr)
    requires Valid(e, t)
    ensures Find(e, t, k) == Some(a) <==> Holds(t, a) && e.key(a) == k
  {
    HomeDistinct(e, t, k);
    HomeHolds(e, t, a);
    SearchIff(e, Home(e, t, k), k);
    hide Valid, Home, Holds, DistinctKeys, Search;
    if Find(e, t, k) == Some(a) {
      HomeHolds(e, t, a);
    }
  }

  // ---- insert and delete ----------------------------------------------------------------------

  /** These items belong in the chain of k. */
  ghost predicate AtHome(e: Env, t: Table, k: Key, chain: seq<Addr>) {
    forall a :: a in chain ==> InOld(e, t, e.key(a)) == InOld(e, t, k) && Bucket(e, t, e.key(a)) == Bucket(e, t, k)
  }

  lemma HomeAtHome(e: Env, t: Table, k: Key)
    requires Valid(e, t)
    ensures AtHome(e, t, k, Home(e, t, k))
  {
    hide Pow2, Half, DistinctKeys;
  }

  lemma SetHomeValid(e: Env, t: Table, k: Key, chain: seq<Addr>)
    requires Valid(e, t) && DistinctKeys(e, chain) && AtHome(e, t, k, chain)
    ensures Valid(e, SetHome(e, t, k, chain))
  {
    SetHomePrimary(e, t, k, chain);
    SetHomeOld(e, t, k, chain);
    hide Pow2, Half, PrimaryOk, OldOk, AtHome, DistinctKeys;
  }

  lemma SetHomePrimary(e: Env, t: Table, k: Key, chain: seq<Addr>)
    requires PrimaryOk(e, t) && DistinctKeys(e, chain) && AtHome(e, t, k, chain)
    ensures PrimaryOk(e, SetHome(e, t, k, chain))
  {
    SameLocation(e, t, SetHome(e, t, k, chain));
    hide Pow2, Half, DistinctKeys, InOld, Bucket;
  }

  lemma SetHomeOld(e: Env, t: Table, k: Key, chain: seq<Addr>)
    requires OldOk(e, t) && DistinctKeys(e, chain) && AtHome(e, t, k, chain)
    ensures OldOk(e, SetHome(e, t, k, chain))
  {
    SameLocation(e, t, SetHome(e, t, k, chain));
    hide Pow2, Half, DistinctKeys, InOld, Bucket;
  }

  lemma SameLocation(e: Env, t: Table, u: Table)
    requires u.power == t.power && u.expanding == t.expanding && u.bucket == t.bucket
    ensures forall k :: InOld(e, u, k) == InOld(e, t, k) && Bucket(e, u, k) == Bucket(e, t, k)
  {
  }

  lemma SetHomeHolds(e: Env, t: Table, k: Key, chain: seq<Addr>, a: Addr)
    requires Valid(e, t) && DistinctKeys(e, chain) && AtHome(e, t, k, chain)
    ensures Holds(SetHome(e, t, k, chain), a) <==> a in chain || (Holds(t, a) && a !in Home(e, t, k))
  {
    SetHomeValid(e, t, k, chain);
    HomeHolds(e, SetHome(e, t, k, chain), a);
    HomeHolds(e, t, a);
    SetHomeHome(e, t, k, chain, e.key(a));
    HomeAtHome(e, t, k);
    hide Valid, Holds, Home, SetHome;
    if InOld(e, t, k) == InOld(e, t, e.key(a)) && Bucket(e, t, k) == Bucket(e, t, e.key(a)) {
      SameHome(e, t, k, e.key(a));
    }
  }

  lemma SetHomeHome(e: Env, t: Table, k: Key, chain: seq<Addr>, k': Key)
    requires Valid(e, t)
    ensures Home(e, SetHome(e, t, k, chain), k') ==
      if InOld(e, t, k) == InOld(e, t, k') && Bucket(e, t, k) == Bucket(e, t, k') then chain else Home(e, t, k')
  {
    ModRange(e.hash(k), Pow2(t.power));
    ModRange(e.hash(k), Pow2(Half(t)));
    hide Pow2, Half, DistinctKeys;
  }

  lemma SameHome(e: Env, t: Table, k: Key, k': Key)
    requires InOld(e, t, k) == InOld(e, t, k') && Bucket(e, t, k) == Bucket(e, t, k')
    ensures Home(e, t, k) == Home(e, t, k')
  {
  }

  lemma {:induction false} UnchainedIs(e: Env, chain: seq<Addr>, k: Key)
    requires DistinctKeys(e, chain)
    ensures DistinctKeys(e, Unchained(e, chain, k))
    ensures forall a :: a in Unchained(e, chain, k) <==> a in chain && e.key(a) != k
  {
    if chain != [] && e.key(chain[0]) != k {
      UnchainedIs(e, chain[1..], k);
      var u := Unchained(e, chain[1..], k);
      forall j | 0 <= j < |u|
        ensures e.key(u[j]) != e.key(chain[0])
      {
        assert u[j] in u;
        var i :| 0 <= i < |chain| - 1 && chain[1..][i] == u[j];
        assert e.key(chain[0]) != e.key(chain[i + 1]);
      }
    } else if chain != [] {
      forall a | a in chain[1..]
        ensures e.key(a) != k
      {
        var j :| 0 <= j < |chain| - 1 && chain[1..][j] == a;
        assert chain[j + 1] == a;
      }
    }
  }

  /** assoc_insert before it looks whether the table has to grow. */
  function Add(e: Env, t: Table, a: Addr): Table {
    SetHome(e, t, e.key(a), [a] + Home(e, t, e.key(a))).(count := t.count + 1)
  }

  lemma CountFree(e: Env, t: Table, n: int)
    requires Valid(e, t)
    ensures Valid(e, t.(count := n))
    ensures forall a :: Holds(t.(count := n), a) == Holds(t, a)
  {
    SameLocation(e, t, t.(count := n));
    hide Pow2, Half, DistinctKeys, InOld, Bucket;
  }

  lemma AddHolds(e: Env, t: Table, a: Addr, b: Addr)
    requires Valid(e, t) && Find(e, t, e.key(a)).None?
    ensures Valid(e, Add(e, t, a))
    ensures Holds(Add(e, t, a), b) <==> b == a || Holds(t, b)
  {
    hide Valid, Holds, Home, SetHome, Search, DistinctKeys, AtHome, InOld, Bucket, Pow2;
    var k := e.key(a);
    var home := Home(e, t, k);
    var chain := [a] + home;
    HomeDistinct(e, t, k);
    SearchIff(e, home, k);
    HomeAtHome(e, t, k);
    ChainWith(e, t, a, home);
    SetHomeValid(e, t, k, chain);
    SetHomeHolds(e, t, k, chain, b);
    CountFree(e, SetHome(e, t, k, chain), t.count + 1);
    if b in home {
      HomeHeld(e, t, k, b);
    }
  }

  /** An item of a new key in front of its chain. */
  lemma ChainWith(e: Env, t: Table, a: Addr, home: seq<Addr>)
    requires DistinctKeys(e, home) && AtHome(e, t, e.key(a), home)
    requires forall x :: x in home ==> e.key(x) != e.key(a)
    ensures DistinctKeys(e, [a] + home) && AtHome(e, t, e.key(a), [a] + home)
  {
    hide InOld, Bucket;
    var chain := [a] + home;
    forall i, j | 0 <= i < j < |chain| ensures e.key(chain[i]) != e.key(chain[j]) {
      var y := home[j - 1];
      assert y in home && chain[j] == y;
      if i > 0 {
        assert chain[i] == home[i - 1];
      }
    }
  }

  lemma HomeHeld(e: Env, t: Table, k: Key, a: Addr)
    requires Valid(e, t) && a in Home(e, t, k)
    ensures Holds(t, a)
  {
    hide Valid, Home, Holds, DistinctKeys;
    HomeDistinct(e, t, k);
    HomeHolds(e, t, a);
  }

  lemma DeleteHolds(e: Env, t: Table, k: Key, b: Addr)
    requires Valid(e, t)
    ensures Valid(e, Delete(e, t, k))
    ensures Holds(Delete(e, t, k), b) <==> Holds(t, b) && e.key(b) != k
  {
    var home := Home(e, t, k);
    HomeDistinct(e, t, k);
    UnchainedIs(e, home, k);
    HomeAtHome(e, t, k);
    FindIff(e, t, k, b);
    if Find(e, t, k).Some? {
      hide Valid, Holds, Home, SetHome, Search, DistinctKeys;
      SetHomeValid(e, t, k, Unchained(e, home, k));
      SetHomeHolds(e, t, k, Unchained(e, home, k), b);
      CountFree(e, SetHome(e, t, k, Unchained(e, home, k)), t.count - 1);
      HomeHolds(e, t, b);
      if b in home {
        SameHome(e, t, k, e.key(b));
      }
    }
  }

  // ---- migration ----------------------------------------------------------------------------------

  /** The table with its next bucket counted as migrated and its items taken out. */
  function Emptied(t: Table): Table
    requires t.bucket < |t.old_|
  {
    var u := t.(old_ := t.old_[t.bucket := []], bucket := t.bucket + 1);
    if u.bucket == Pow2(Half(t)) then u.(expanding := false, old_ := []) else u
  }

  lemma {:induction false} PushAllLater(e: Env, t: Table, u: Table, chain: seq<Addr>)
    requires u == t.(old_ := u.old_, bucket := u.bucket, expanding := u.expanding)
    ensures PushAll(e, u, chain) == PushAll(e, t, chain).(old_ := u.old_, bucket := u.bucket, expanding := u.expanding)
    decreases |chain|
  {
    hide Pow2;
    if chain != [] {
      PushAllLater(e, Push(e, t, chain[0]), Push(e, u, chain[0]), chain[1..]);
    }
  }

  lemma MoveNextIs(e: Env, t: Table)
    requires t.expanding && t.bucket < |t.old_|
    ensures MoveNext(e, t) == PushAll(e, Emptied(t), t.old_[t.bucket])
  {
    PushAllLater(e, t, Emptied(t), t.old_[t.bucket]);
    PushAllLater(e, t, t, t.old_[t.bucket]);
    hide Pow2, PushAll;
  }

  lemma OldIndexed(e: Env, t: Table, b: nat, a: Addr)
    requires Valid(e, t) && b < |t.old_| && a in t.old_[b]
    ensures InOld(e, t, e.key(a)) && e.hash(e.key(a)) % Pow2(Half(t)) == b >= t.bucket
    ensures Holds(t, a) && Home(e, t, e.key(a)) == t.old_[b] && t.expanding
  {
    hide Pow2, Half, DistinctKeys;
  }

  /** Advancing expand_bucket moves the keys of one old bucket, and no others, to the primary table. */
  lemma EmptiedPlaces(e: Env, t: Table, k: Key)
    requires Valid(e, t) && t.expanding
    ensures InOld(e, Emptied(t), k) <==> InOld(e, t, k) && e.hash(k) % Pow2(Half(t)) != t.bucket
    ensures InOld(e, Emptied(t), k) == InOld(e, t, k) ==> Bucket(e, Emptied(t), k) == Bucket(e, t, k)
  {
    ModRange(e.hash(k), Pow2(Half(t)));
    hide Pow2, PrimaryOk, OldOk;
  }

  lemma EmptiedPrimary(e: Env, t: Table)
    requires Valid(e, t) && t.expanding
    ensures PrimaryOk(e, Emptied(t))
  {
    forall k
      ensures !InOld(e, t, k) ==> !InOld(e, Emptied(t), k) && Bucket(e, Emptied(t), k) == Bucket(e, t, k)
    {
      EmptiedPlaces(e, t, k);
    }
    hide Pow2, Half, InOld, Bucket, DistinctKeys, OldOk;
  }

  lemma EmptiedOld(e: Env, t: Table)
    requires Valid(e, t) && t.expanding
    ensures OldOk(e, Emptied(t))
  {
    var u := Emptied(t);
    assert DistinctKeys(e, []);
    forall b, a | 0 <= b < |u.old_| && a in u.old_[b]
      ensures InOld(e, u, e.key(a)) && Bucket(e, u, e.key(a)) == b
    {
      OldIndexed(e, t, b, a);
      EmptiedPlaces(e, t, e.key(a));
    }
    hide Pow2, Half, InOld, Bucket, DistinctKeys, PrimaryOk;
  }

  lemma EmptiedValid(e: Env, t: Table)
    requires Valid(e, t) && t.expanding
    ensures Valid(e, Emptied(t))
  {
    EmptiedPrimary(e, t);
    EmptiedOld(e, t);
    hide PrimaryOk, OldOk, Pow2;
  }

  lemma EmptiedHolds(e: Env, t: Table, b: Addr)
    requires Valid(e, t) && t.expanding
    ensures Holds(Emptied(t), b) <==> Holds(t, b) && b !in t.old_[t.bucket]
  {
    EmptiedValid(e, t);
    HomeHolds(e, t, b);
    HomeHolds(e, Emptied(t), b);
    EmptiedPlaces(e, t, e.key(b));
    if b in t.old_[t.bucket] {
      OldIndexed(e, t, t.bucket, b);
      EmptyHome(e, t, b);
    } else {
      OtherHome(e, t, b);
    }
    hide Valid, Holds, Home, Emptied;
  }

  /** The primary chain that an item of the next bucket will join holds no item of its key. */
  lemma EmptyHome(e: Env, t: Table, b: Addr)
    requires Valid(e, t) && t.expanding && b in t.old_[t.bucket] && !InOld(e, Emptied(t), e.key(b))
    ensures b !in Home(e, Emptied(t), e.key(b))
  {
    OldIndexed(e, t, t.bucket, b);
    hide Pow2, Half, DistinctKeys, OldOk;
  }

  lemma OtherHome(e: Env, t: Table, b: Addr)
    requires Valid(e, t) && t.expanding && b !in t.old_[t.bucket]
    ensures b in Home(e, Emptied(t), e.key(b)) <==> b in Home(e, t, e.key(b))
  {
    var k := e.key(b);
    var u := Emptied(t);
    EmptiedPlaces(e, t, k);
    if InOld(e, u, k) == InOld(e, t, k) {
      hide Pow2, Half, DistinctKeys, PrimaryOk, OldOk, InOld, Bucket;
    } else {
      NotThere(e, t, b);
    }
  }

  lemma NotThere(e: Env, t: Table, b: Addr)
    requires Valid(e, t) && t.expanding && b !in t.old_[t.bucket]
    requires InOld(e, t, e.key(b)) && !InOld(e, Emptied(t), e.key(b)) && e.hash(e.key(b)) % Pow2(Half(t)) == t.bucket
    ensures b !in Home(e, Emptied(t), e.key(b)) && b !in Home(e, t, e.key(b))
  {
    hide Pow2, Half, DistinctKeys, OldOk;
  }

  lemma PushIsAdd(e: Env, u: Table, a: Addr)
    requires Valid(e, u) && !InOld(e, u, e.key(a))
    ensures Push(e, u, a) == Add(e, u, a).(count := u.count)
  {
    ModRange(e.hash(e.key(a)), Pow2(u.power));
    hide Pow2, PrimaryOk, OldOk;
  }

  /** These items are new to the table, and their chains are in the primary table. */
  ghost predicate Joining(e: Env, u: Table, chain: seq<Addr>) {
    DistinctKeys(e, chain) && forall a :: a in chain ==> !InOld(e, u, e.key(a)) && Find(e, u, e.key(a)).None?
  }

  lemma JoiningRest(e: Env, u: Table, chain: seq<Addr>)
    requires Valid(e, u) && chain != [] && Joining(e, u, chain)
    ensures Valid(e, Push(e, u, chain[0])) && Joining(e, Push(e, u, chain[0]), chain[1..])
    ensures forall b :: Holds(Push(e, u, chain[0]), b) <==> b == chain[0] || Holds(u, b)
  {
    var a := chain[0];
    assert a in chain;
    PushIsAdd(e, u, a);
    var v := Push(e, u, a);
    hide Valid, Holds, Find, InOld, Push, Add;
    assert Valid(e, v) by {
      AddHolds(e, u, a, a);
      CountFree(e, Add(e, u, a), u.count);
    }
    forall b
      ensures Holds(v, b) <==> b == a || Holds(u, b)
    {
      AddHolds(e, u, a, b);
      CountFree(e, Add(e, u, a), u.count);
    }
    forall x | x in chain[1..]
      ensures !InOld(e, v, e.key(x)) && Find(e, v, e.key(x)).None?
    {
      PushPlaces(e, u, a, e.key(x));
      var j :| 0 <= j < |chain| - 1 && chain[1..][j] == x;
      assert chain[j + 1] in chain && e.key(chain[0]) != e.key(chain[j + 1]);
      if Find(e, v, e.key(x)).Some? {
        var y := Find(e, v, e.key(x)).value;
        FindIff(e, v, e.key(x), y);
        FindIff(e, u, e.key(x), y);
      }
    }
  }

  lemma PushPlaces(e: Env, u: Table, a: Addr, k: Key)
    ensures InOld(e, Push(e, u, a), k) == InOld(e, u, k)
  {
  }

  lemma {:induction false} PushAllHolds(e: Env, u: Table, chain: seq<Addr>)
    requires Valid(e, u) && Joining(e, u, chain)
    ensures Valid(e, PushAll(e, u, chain))
    ensures forall b :: Holds(PushAll(e, u, chain), b) <==> b in chain || Holds(u, b)
    decreases |chain|
  {
    hide Valid, Holds, Joining, Push;
    if chain != [] {
      JoiningRest(e, u, chain);
      PushAllHolds(e, Push(e, u, chain[0]), chain[1..]);
    }
  }

  lemma NextJoining(e: Env, t: Table)
    requires Valid(e, t) && t.expanding
    ensures Joining(e, Emptied(t), t.old_[t.bucket])
  {
    var u, chain := Emptied(t), t.old_[t.bucket];
    EmptiedValid(e, t);
    assert DistinctKeys(e, chain);
    forall a | a in chain
      ensures !InOld(e, u, e.key(a)) && Find(e, u, e.key(a)).None?
    {
      OldIndexed(e, t, t.bucket, a);
      EmptiedPlaces(e, t, e.key(a));
      if Find(e, u, e.key(a)).Some? {
        var x := Find(e, u, e.key(a)).value;
        FindIff(e, u, e.key(a), x);
        EmptiedHolds(e, t, x);
        FindIff(e, t, e.key(a), x);
        FindIff(e, t, e.key(a), a);
      }
    }
    hide Valid, Find, InOld, DistinctKeys;
  }

  /** Migrating a bucket changes nothing a lookup can see. */
  lemma MoveNextHolds(e: Env, t: Table, b: Addr)
    requires Valid(e, t)
    ensures Valid(e, MoveNext(e, t))
    ensures Holds(MoveNext(e, t), b) <==> Holds(t, b)
  {
    if t.expanding {
      MoveNextIs(e, t);
      EmptiedValid(e, t);
      NextJoining(e, t);
      EmptiedHolds(e, t, b);
      PushAllHolds(e, Emptied(t), t.old_[t.bucket]);
      if b in t.old_[t.bucket] {
        OldIndexed(e, t, t.bucket, b);
      }
      hide Valid, Holds, Joining, MoveNext;
    }
  }

  lemma MoveNextFinds(e: Env, t: Table, k: Key)
    requires Valid(e, t)
    ensures Valid(e, MoveNext(e, t)) && Find(e, MoveNext(e, t), k) == Find(e, t, k)
  {
    hide Valid, Holds, MoveNext, Find;
    var u := MoveNext(e, t);
    MoveNextHolds(e, t, 0);
    if Find(e, t, k).Some? {
      var a := Find(e, t, k).value;
      FindIff(e, t, k, a);
      MoveNextHolds(e, t, a);
      FindIff(e, u, k, a);
    } else if Find(e, u, k).Some? {
      var a := Find(e, u, k).value;
      FindIff(e, u, k, a);
      MoveNextHolds(e, t, a);
      FindIff(e, t, k, a);
    }
  }

  /** assoc_expand before the first bucket is migrated. */
  function Widened(t: Table): Table {
    Table(t.power + 1, true, 0, seq(Pow2(t.power + 1), _ => []), t.primary, t.count)
  }

  lemma WidenedFinds(e: Env, t: Table, k: Key)
    requires Valid(e, t) && !t.expanding
    ensures Valid(e, Widened(t)) && Find(e, Widened(t), k) == Find(e, t, k)
  {
    ModRange(e.hash(k), Pow2(t.power));
    assert Pow2(Half(Widened(t))) == Pow2(t.power);
    forall k'
      ensures InOld(e, Widened(t), k') && Bucket(e, Widened(t), k') == Bucket(e, t, k')
    {
      ModRange(e.hash(k'), Pow2(t.power));
    }
    hide InOld, Bucket, DistinctKeys, Pow2;
    assert DistinctKeys(e, []) by { EmptyDistinct(e); }
  }

  lemma EmptyDistinct(e: Env)
    ensures DistinctKeys(e, [])
  {
  }

  lemma ExpandFinds(e: Env, t: Table, memory: bool, k: Key)
    requires Valid(e, t) && !t.expanding
    ensures Valid(e, Expand(e, t, memory)) && Find(e, Expand(e, t, memory), k) == Find(e, t, k)
  {
    hide Valid, Find, MoveNext;
    if memory {
      WidenedFinds(e, t, k);
      MoveNextFinds(e, Widened(t), k);
    }
  }

  /** Inserting an item, growth included, adds its key and changes no other lookup. */
  lemma InsertFinds(e: Env, t: Table, a: Addr, memory: bool, k: Key)
    requires Valid(e, t) && Find(e, t, e.key(a)).None?
    ensures Valid(e, Insert(e, t, a, memory))
    ensures Find(e, Insert(e, t, a, memory), k) == if k == e.key(a) then Some(a) else Find(e, t, k)
  {
    hide Valid, Find, Holds, Expand, Overfull, Add;
    var u := Add(e, t, a);
    AddHolds(e, t, a, a);
    FindIff(e, u, e.key(a), a);
    if k != e.key(a) {
      if Find(e, t, k).Some? {
        var b := Find(e, t, k).value;
        FindIff(e, t, k, b);
        AddHolds(e, t, a, b);
        FindIff(e, u, k, b);
      } else if Find(e, u, k).Some? {
        var b := Find(e, u, k).value;
        FindIff(e, u, k, b);
        AddHolds(e, t, a, b);
        FindIff(e, t, k, b);
      }
    }
    InsertIs(e, t, a, memory);
    if Overfull(u) {
      OverfullIs(u);
      ExpandFinds(e, u, memory, k);
    }
  }

  lemma OverfullIs(u: Table)
    requires Overfull(u)
    ensures !u.expanding
  {
  }

  lemma InsertIs(e: Env, t: Table, a: Addr, memory: bool)
    ensures Insert(e, t, a, memory) == if Overfull(Add(e, t, a)) then Expand(e, Add(e, t, a), memory) else Add(e, t, a)
  {
    hide Overfull, Expand;
  }

  lemma DeleteFinds(e: Env, t: Table, k: Key, k': Key)
    requires Valid(e, t)
    ensures Valid(e, Delete(e, t, k))
    ensures Find(e, Delete(e, t, k), k') == if k' == k then None else Find(e, t, k')
  {
    hide Valid, Find, Holds, Delete;
    var u := Delete(e, t, k);
    DeleteHolds(e, t, k, 0);
    if Find(e, u, k').Some? {
      var b := Find(e, u, k').value;
      FindIff(e, u, k', b);
      DeleteHolds(e, t, k, b);
      FindIff(e, t, k', b);
    } else if Find(e, t, k').Some? {
      var b := Find(e, t, k').value;
      FindIff(e, t, k', b);
      DeleteHolds(e, t, k, b);
      FindIff(e, u, k', b);
    }
  }
}
