/** assoc.c over bucket arrays and the h_next fields of items.  `table` is the value that the
    pointers spell out; every method computes the function of module Assoc on it. */
module AssocTable {
  import opened Seqs
  import opened Assoc

  const NULL: Addr := 0

  /** The h_next fields, from a head on, spell out a list that ends in NULL. */
  ghost predicate Chain(m: map<Addr, Addr>, head: Addr, list: seq<Addr>)
    decreases |list|
  {
    if list == [] then head == NULL
    else head == list[0] && head != NULL && head in m && Chain(m, m[head], list[1..])
  }

  lemma {:induction false} ChainFrame(m: map<Addr, Addr>, n: map<Addr, Addr>, head: Addr, list: seq<Addr>)
    requires Chain(m, head, list) && forall x :: x in list && x in m ==> x in n && n[x] == m[x]
    ensures Chain(n, head, list)
    decreases |list|
  {
    if list != [] {
      ChainFrame(m, n, m[head], list[1..]);
    }
  }

  ghost predicate Spells(m: map<Addr, Addr>, heads: seq<Addr>, chains: seq<seq<Addr>>) {
    |heads| == |chains| && forall b :: 0 <= b < |heads| ==> Chain(m, heads[b], chains[b])
  }

  lemma ChainOf(m: map<Addr, Addr>, heads: seq<Addr>, chains: seq<seq<Addr>>, b: nat)
    requires Spells(m, heads, chains) && b < |chains|
    ensures |heads| == |chains| && Chain(m, heads[b], chains[b])
  {
    hide Chain;
  }

  /** Writing the field of an item that is on no chain. */
  lemma SpellsFree(m: map<Addr, Addr>, heads: seq<Addr>, chains: seq<seq<Addr>>, a: Addr, v: Addr)
    requires Spells(m, heads, chains) && forall b :: 0 <= b < |chains| ==> a !in chains[b]
    ensures Spells(m[a := v], heads, chains)
  {
    forall b | 0 <= b < |heads|
      ensures Chain(m[a := v], heads[b], chains[b])
    {
      ChainFrame(m, m[a := v], heads[b], chains[b]);
    }
  }

  /** Pushing an item that is on no chain. */
  lemma SpellsPush(m: map<Addr, Addr>, heads: seq<Addr>, chains: seq<seq<Addr>>, a: Addr, b: nat)
    requires Spells(m, heads, chains) && b < |heads| && a != NULL && forall c :: 0 <= c < |chains| ==> a !in chains[c]
    ensures Spells(m[a := heads[b]], heads[b := a], chains[b := [a] + chains[b]])
  {
    SpellsFree(m, heads, chains, a, heads[b]);
    assert ([a] + chains[b])[1..] == chains[b];
  }

  /** The fields after the item at position j of a chain is taken out. */
  function Cut(m: map<Addr, Addr>, list: seq<Addr>, j: nat): map<Addr, Addr>
    requires j < |list| && list[j] in m
  {
    var n := m[list[j] := NULL];
    if j == 0 then n else n[list[j - 1] := m[list[j]]]
  }

  lemma {:induction false} ChainCut(m: map<Addr, Addr>, head: Addr, list: seq<Addr>, j: nat)
    requires Chain(m, head, list) && NoDup(list) && j < |list|
    ensures list[j] in m
    ensures Chain(Cut(m, list, j), if j == 0 then m[head] else head, list[..j] + list[j + 1..])
    decreases |list|
  {
    ChainListed(m, head, list, j);
    var n, rest := Cut(m, list, j), list[..j] + list[j + 1..];
    if j == 0 {
      assert rest == list[1..];
      ChainFrame(m, n, m[head], list[1..]);
    } else {
      var tail := list[1..];
      assert tail[j - 1] == list[j] && list[0] !in tail;
      ChainCut(m, m[head], tail, j - 1);
      assert rest[1..] == tail[..j - 1] + tail[j..];
      if j > 1 {
        assert Cut(m, tail, j - 1) == n;
      } else {
        ChainFrame(Cut(m, tail, 0), n, m[list[1]], tail[1..]);
        assert rest[1..] == tail[1..];
      }
    }
  }

  lemma {:induction false} ChainListed(m: map<Addr, Addr>, head: Addr, list: seq<Addr>, j: nat)
    requires Chain(m, head, list) && j < |list|
    ensures list[j] in m && list[j] != NULL
    ensures m[list[j]] == if j + 1 < |list| then list[j + 1] else NULL
    ensures head == list[0]
    decreases |list|
  {
    if j > 0 {
      ChainListed(m, m[head], list[1..], j - 1);
    }
  }

  /** Writes to items of one chain leave the others spelled. */
  lemma SpellsOther(m: map<Addr, Addr>, n: map<Addr, Addr>, heads: seq<Addr>, chains: seq<seq<Addr>>, list: seq<Addr>)
    requires Spells(m, heads, chains)
    requires forall b, x :: 0 <= b < |chains| && x in chains[b] ==> x !in list
    requires forall x :: x in m && x !in list ==> x in n && n[x] == m[x]
    ensures Spells(n, heads, chains)
  {
    forall b | 0 <= b < |heads|
      ensures Chain(n, heads[b], chains[b])
    {
      ChainFrame(m, n, heads[b], chains[b]);
    }
  }

  // ---- facts about a valid table -----------------------------------------------------------------

  lemma ItemApart(e: Env, t: Table, a: Addr)
    requires Valid(e, t) && Find(e, t, e.key(a)).None?
    ensures forall b :: 0 <= b < |t.primary| ==> a !in t.primary[b]
    ensures forall b :: 0 <= b < |t.old_| ==> a !in t.old_[b]
  {
    FindIff(e, t, e.key(a), a);
    hide Valid, Find;
  }

  lemma BucketInRange(e: Env, t: Table, k: Key)
    requires Valid(e, t)
    ensures if InOld(e, t, k) then Bucket(e, t, k) < |t.old_| else Bucket(e, t, k) < |t.primary|
  {
    ModRange(e.hash(k), Pow2(t.power));
    ModRange(e.hash(k), Pow2(Half(t)));
    hide Pow2, PrimaryOk, OldOk;
  }

  lemma DistinctNoDup(e: Env, chain: seq<Addr>)
    requires DistinctKeys(e, chain)
    ensures NoDup(chain)
  {
    NoDupFromIndices(chain);
  }

  class HashTable {
    const env: Env
    var hnext: map<Addr, Addr>
    var primary: array<Addr>
    var old_: array<Addr>
    var power: nat
    var expanding: bool
    var bucket: nat
    var count: int
    ghost var chains: seq<seq<Addr>>
    ghost var oldChains: seq<seq<Addr>>

    ghost function Value(): Table
      reads this
    {
      Table(power, expanding, bucket, chains, oldChains, count)
    }

    ghost predicate Spelled()
      reads this, primary, old_
    {
      primary != old_ && Spells(hnext, primary[..], chains) && (expanding ==> Spells(hnext, old_[..], oldChains))
    }

    /** assoc_init */
    constructor (env: Env, power: nat)
      ensures Assoc.Valid(env, Value()) && Spelled() && this.env == env && fresh(primary) && fresh(old_)
      ensures forall k :: Find(env, Value(), k) == None
    {
      this.env := env;
      this.power, expanding, bucket, count := power, false, 0, 0;
      hnext := map[];
      primary := new Addr[Pow2(power)](_ => NULL);
      old_ := new Addr[0];
      chains, oldChains := seq(Pow2(power), _ => []), [];
      new;
      hide Pow2;
    }

    lemma HomeChain(k: Key)
      requires Assoc.Valid(env, Value()) && Spelled()
      ensures var b := Bucket(env, Value(), k);
        if InOld(env, Value(), k) then b < old_.Length && Chain(hnext, old_[b], Home(env, Value(), k))
        else b < primary.Length && Chain(hnext, primary[b], Home(env, Value(), k))
      ensures InOld(env, Value(), k) ==> expanding && power > 0
    {
      BucketInRange(env, Value(), k);
      hide Chain, Pow2, PrimaryOk, OldOk;
    }

    method AssocFind(k: Key) returns (r: Option<Addr>)
      requires Assoc.Valid(env, Value()) && Spelled()
      ensures r == Find(env, Value(), k)
    {
      HomeChain(k);
      hide Assoc.Valid;
      ghost var rest := Home(env, Value(), k);
      var hv := env.hash(k);
      var it;
      if expanding && power > 0 && hv % Pow2(power - 1) >= bucket {
        it := old_[hv % Pow2(power - 1)];
      } else {
        it := primary[hv % Pow2(power)];
      }
      while it != NULL
        invariant Chain(hnext, it, rest) && Search(env, rest, k) == Find(env, Value(), k)
        decreases |rest|
      {
        if env.key(it) == k {
          return Some(it);
        }
        it := hnext[it];
        rest := rest[1..];
      }
      r := None;
    }

    /** assoc_insert up to the growth test: the item becomes the head of its chain. */
    method LinkItem(a: Addr)
      requires Assoc.Valid(env, Value()) && Spelled() && a != NULL && Find(env, Value(), env.key(a)).None?
      modifies this`hnext, this`chains, this`oldChains, this`count, primary, old_
      ensures Spelled() && Value() == Add(env, old(Value()), a)
    {
      var k := env.key(a);
      BucketInRange(env, Value(), k);
      ItemApart(env, Value(), a);
      HomeChain(k);
      hide Assoc.Valid;
      var hv := env.hash(k);
      if expanding && power > 0 && hv % Pow2(power - 1) >= bucket {
        var b := hv % Pow2(power - 1);
        SpellsPush(hnext, old_[..], oldChains, a, b);
        SpellsFree(hnext, primary[..], chains, a, old_[b]);
        hide Pow2, Spells;
        hnext := hnext[a := old_[b]];
        old_[b] := a;
        oldChains := oldChains[b := [a] + oldChains[b]];
      } else {
        var b := hv % Pow2(power);
        SpellsPush(hnext, primary[..], chains, a, b);
        if expanding {
          SpellsFree(hnext, old_[..], oldChains, a, primary[b]);
        }
        hide Pow2, Spells;
        hnext := hnext[a := primary[b]];
        primary[b] := a;
        chains := chains[b := [a] + chains[b]];
      }
      count := count + 1;
    }

    /** The item at `it` moves from its old chain to the head of its primary chain. */
    method PushItem(it: Addr)
      requires Spells(hnext, primary[..], chains) && |chains| == Pow2(power) && it != NULL
      requires forall c :: 0 <= c < |chains| ==> it !in chains[c]
      modifies this`hnext, this`chains, primary
      ensures Spells(hnext, primary[..], chains) && Value() == Push(env, old(Value()), it)
      ensures it in hnext && hnext == old(hnext)[it := hnext[it]] && |chains| == Pow2(power)
      ensures forall c, x :: 0 <= c < |chains| && x in chains[c] ==> x == it || x in old(chains)[c]
    {
      ModRange(env.hash(env.key(it)), Pow2(power));
      var b := env.hash(env.key(it)) % Pow2(power);
      SpellsPush(hnext, primary[..], chains, it, b);
      hide Pow2, Spells;
      hnext := hnext[it := primary[b]];
      primary[b] := it;
      chains := chains[b := [it] + chains[b]];
    }

    /** The walk of do_assoc_move_next_bucket down one old chain. */
    method PushChain(head: Addr, ghost list: seq<Addr>)
      requires Spells(hnext, primary[..], chains) && |chains| == Pow2(power)
      requires Chain(hnext, head, list) && NoDup(list)
      requires forall c, x :: 0 <= c < |chains| && x in chains[c] ==> x !in list
      modifies this`hnext, this`chains, primary
      ensures Spells(hnext, primary[..], chains) && Value() == PushAll(env, old(Value()), list)
      ensures forall x :: x in old(hnext) && x !in list ==> x in hnext && hnext[x] == old(hnext)[x]
    {
      hide Pow2, Spells;
      var it := head;
      ghost var start, rest := Value(), list;
      while it != NULL
        invariant Spells(hnext, primary[..], chains) && |chains| == Pow2(power)
        invariant Chain(hnext, it, rest) && NoDup(rest)
        invariant forall x :: x in rest ==> x in list
        invariant forall c, x :: 0 <= c < |chains| && x in chains[c] ==> x !in rest
        invariant PushAll(env, Value(), rest) == PushAll(env, start, list)
        invariant forall x :: x in old(hnext) && x !in list ==> x in hnext && hnext[x] == old(hnext)[x]
        decreases |rest|
      {
        var next := hnext[it];
        ghost var before := hnext;
        assert it == rest[0] && it in rest && forall x :: x in rest[1..] ==> x in rest;
        PushItem(it);
        ChainFrame(before, hnext, next, rest[1..]);
        it := next;
        rest := rest[1..];
      }
    }

    /** do_assoc_move_next_bucket */
    method MoveNextBucket()
      requires Assoc.Valid(env, Value()) && Spelled()
      modifies this`hnext, this`chains, this`oldChains, this`expanding, this`bucket, primary, old_
      ensures Spelled() && Value() == MoveNext(env, old(Value()))
    {
      hide Assoc.Valid, Pow2, PushAll, Spells, NoDup;
      if expanding {
        ghost var t := Value();
        BucketBound(env, t);
        ghost var list := oldChains[bucket];
        NextApart(env, t);
        SpellsLength(hnext, old_[..], oldChains);
        MoveFrom(list);
        old_[bucket] := NULL;
        oldChains := oldChains[bucket := []];
        bucket := bucket + 1;
        if bucket == Pow2(power - 1) {
          expanding := false;
          oldChains := [];
        }
      }
    }

    /** The chain of the next bucket is pushed; it is still spelled in the old table. */
    method MoveFrom(ghost list: seq<Addr>)
      requires expanding && bucket < |oldChains| && list == oldChains[bucket] && Spelled() && |chains| == Pow2(power)
      requires NoDup(list)
      requires forall b, x :: 0 <= b < |chains| && x in chains[b] ==> x !in list
      requires forall b, x :: 0 <= b < |oldChains| && b != bucket && x in oldChains[b] ==> x !in list
      modifies this`hnext, this`chains, primary
      ensures Spells(hnext, primary[..], chains) && Value() == PushAll(env, old(Value()), list)
      ensures Spells(hnext, old_[..][bucket := NULL], oldChains[bucket := []])
    {
      ghost var before, heads := hnext, old_[..];
      assert Chain(hnext, old_[bucket], list);
      PushChain(old_[bucket], list);
      SpellsRest(before, hnext, heads, oldChains, bucket);
    }

    /** assoc_expand */
    method AssocExpand(memory: bool)
      requires Assoc.Valid(env, Value()) && Spelled() && !expanding
      modifies this`hnext, this`chains, this`oldChains, this`expanding, this`bucket, this`power,
               this`primary, this`old_, primary, old_
      ensures Spelled() && Value() == Expand(env, old(Value()), memory)
      ensures fresh(primary) || primary == old(primary)
    {
      hide Assoc.Valid, Pow2, MoveNext, Spells;
      if memory {
        WidenedFinds(env, Value(), "");
        Widen();
        MoveNextBucket();
      }
    }

    /** The new table, twice as large, and the old one kept beside it. */
    method Widen()
      requires Spelled() && !expanding
      modifies this`chains, this`oldChains, this`expanding, this`bucket, this`power, this`primary, this`old_
      ensures Spelled() && Value() == Widened(old(Value())) && fresh(primary) && old_ == old(primary)
    {
      hide Pow2;
      var larger := new Addr[Pow2(power + 1)](_ => NULL);
      old_ := primary;
      primary := larger;
      oldChains := chains;
      chains := seq(Pow2(power + 1), _ => []);
      power, expanding, bucket := power + 1, true, 0;
      assert Spells(hnext, primary[..], chains);
    }

    /** assoc_insert */
    method AssocInsert(a: Addr, memory: bool)
      requires Assoc.Valid(env, Value()) && Spelled() && a != NULL && Find(env, Value(), env.key(a)).None?
      modifies this, primary, old_
      ensures Assoc.Valid(env, Value()) && Spelled() && Value() == Insert(env, old(Value()), a, memory)
    {
      hide Assoc.Valid, Find, Expand, Add;
      ghost var t := Value();
      AddHolds(env, t, a, a);
      InsertFinds(env, t, a, memory, "");
      InsertIs(env, t, a, memory);
      LinkItem(a);
      if !expanding && count > Pow2(power) * 3 / 2 {
        AssocExpand(memory);
      }
    }

    /** _hashitem_before and assoc_delete: the field that points at the item found, be it the
        bucket or the h_next of the item before, is made to point past it. */
    method AssocDelete(k: Key)
      requires Assoc.Valid(env, Value()) && Spelled()
      modifies this`hnext, this`chains, this`oldChains, this`count, primary, old_
      ensures Assoc.Valid(env, Value()) && Spelled() && Value() == Delete(env, old(Value()), k)
    {
      hide Assoc.Valid, Pow2, Spells, DistinctKeys, Home, Holds;
      ghost var t, list := Value(), Home(env, Value(), k);
      DeleteHolds(env, t, k, 0);
      HomeDistinct(env, t, k);
      HomeChain(k);
      var hv := env.hash(k);
      var inOld := expanding && power > 0 && hv % Pow2(power - 1) >= bucket;
      var b := if inOld then hv % Pow2(power - 1) else hv % Pow2(power);
      var prev, it := Before(if inOld then old_[b] else primary[b], list, k);
      if it != NULL {
        ghost var j :| 0 <= j < |list| && Position(list, j, prev, it);
        CutOut(k, inOld, b, prev, it, j);
        count := count - 1;
      }
    }

    /** The writes of assoc_delete. */
    method CutOut(k: Key, inOld: bool, b: nat, prev: Addr, it: Addr, ghost j: nat)
      requires Assoc.Valid(env, Value()) && Spelled()
      requires inOld == InOld(env, Value(), k) && b == Bucket(env, Value(), k)
      requires Position(Home(env, Value(), k), j, prev, it) && env.key(it) == k
      modifies this`hnext, this`chains, this`oldChains, primary, old_
      ensures Spelled()
      ensures Value() == SetHome(env, old(Value()), k, Unchained(env, old(Home(env, Value(), k)), k))
    {
      hide Assoc.Valid, Pow2, DistinctKeys, Unchained, Chain, Half;
      ghost var t, list := Value(), Home(env, Value(), k);
      OldNone(env, t);
      CutFacts(hnext, primary[..], if expanding then old_[..] else [], k, j);
      BucketInRange(env, t, k);
      hide Spells;
      var next := hnext[it];
      hnext := hnext[it := NULL];
      if prev != NULL {
        hnext := hnext[prev := next];
      } else if inOld {
        old_[b] := next;
      } else {
        primary[b] := next;
      }
      if inOld {
        oldChains := oldChains[b := Unchained(env, list, k)];
      } else {
        chains := chains[b := Unchained(env, list, k)];
      }
    }

    lemma CutFacts(m: map<Addr, Addr>, heads: seq<Addr>, oldHeads: seq<Addr>, k: Key, j: nat)
      requires Assoc.Valid(env, Value()) && Spells(m, heads, chains) && Spells(m, oldHeads, oldChains)
      requires var list := Home(env, Value(), k); j < |list| && env.key(list[j]) == k
      ensures var t := Value(); var list := Home(env, t, k); var b := Bucket(env, t, k);
        && list[j] in m && list[j] != NULL && (j > 0 ==> list[j - 1] != NULL)
        && var n := Cut(m, list, j);
        if InOld(env, t, k) then
          b < |oldHeads| && Spells(n, heads, chains)
          && Spells(n, oldHeads[b := if j == 0 then m[list[0]] else oldHeads[b]],
                    oldChains[b := Unchained(env, list, k)])
        else
          b < |heads| && Spells(n, oldHeads, oldChains)
          && Spells(n, heads[b := if j == 0 then m[list[0]] else heads[b]], chains[b := Unchained(env, list, k)])
    {
      hide Assoc.Valid, Pow2, DistinctKeys, Home, InOld, Bucket, Unchained, Cut, Spells, NoDup;
      var t := Value();
      var list, b := Home(env, t, k), Bucket(env, t, k);
      HomeDistinct(env, t, k);
      DistinctNoDup(env, list);
      UnchainedAt(env, list, k, j);
      BucketInRange(env, t, k);
      HomeApart(env, t, k);
      HomeIs(env, t, k);
      SpellsLength(m, heads, chains);
      SpellsLength(m, oldHeads, oldChains);
      if InOld(env, t, k) {
        ChainOf(m, oldHeads, oldChains, b);
        ChainListed(m, oldHeads[b], list, j);
        if j > 0 { ChainListed(m, oldHeads[b], list, j - 1); }
        CutSpells(m, oldHeads, oldChains, b, j);
        CutOther(m, list, j);
        SpellsOther(m, Cut(m, list, j), heads, chains, list);
      } else {
        ChainOf(m, heads, chains, b);
        ChainListed(m, heads[b], list, j);
        if j > 0 { ChainListed(m, heads[b], list, j - 1); }
        CutSpells(m, heads, chains, b, j);
        CutOther(m, list, j);
        SpellsOther(m, Cut(m, list, j), oldHeads, oldChains, list);
      }
    }

    /** The walk of _hashitem_before: the item of key k and the one before it on its chain. */
    method Before(head: Addr, ghost list: seq<Addr>, k: Key) returns (prev: Addr, it: Addr)
      requires Chain(hnext, head, list)
      ensures it == NULL <==> Search(env, list, k).None?
      ensures it != NULL ==> env.key(it) == k
      ensures it != NULL ==> exists j :: 0 <= j < |list| && Position(list, j, prev, it)
    {
      prev, it := NULL, head;
      ghost var j := 0;
      while it != NULL && env.key(it) != k
        invariant 0 <= j <= |list| && Chain(hnext, it, list[j..]) && Search(env, list[j..], k) == Search(env, list, k)
        invariant j < |list| ==> Position(list, j, prev, it)
        decreases |list| - j
      {
        assert list[j..][1..] == list[j + 1..];
        ChainListed(hnext, it, list[j..], 0);
        prev := it;
        it := hnext[it];
        j := j + 1;
        assert j < |list| ==> list[j] == list[j..][0];
      }
    }
  }

  lemma CutOther(m: map<Addr, Addr>, list: seq<Addr>, j: nat)
    requires j < |list| && list[j] in m
    ensures forall x :: x in m && x !in list ==> x in Cut(m, list, j) && Cut(m, list, j)[x] == m[x]
  {
  }

  lemma CutSpells(m: map<Addr, Addr>, heads: seq<Addr>, chains: seq<seq<Addr>>, b: nat, j: nat)
    requires Spells(m, heads, chains) && b < |chains| && NoDup(chains[b]) && j < |chains[b]| && chains[b][j] in m
    requires forall c, x :: 0 <= c < |chains| && x in chains[c] && x in chains[b] ==> c == b
    ensures chains[b][0] in m
    ensures Spells(Cut(m, chains[b], j), heads[b := if j == 0 then m[chains[b][0]] else heads[b]],
                   chains[b := chains[b][..j] + chains[b][j + 1..]])
  {
    var list, n := chains[b], Cut(m, chains[b], j);
    ChainCut(m, heads[b], list, j);
    ChainListed(m, heads[b], list, 0);
    CutOther(m, list, j);
    var hs, cs := heads[b := if j == 0 then m[list[0]] else heads[b]], chains[b := list[..j] + list[j + 1..]];
    hide Cut, NoDup;
    forall c | 0 <= c < |cs|
      ensures Chain(n, hs[c], cs[c])
    {
      if c != b {
        ChainFrame(m, n, heads[c], chains[c]);
      }
    }
  }

  lemma {:induction false} UnchainedAt(e: Env, list: seq<Addr>, k: Key, j: nat)
    requires DistinctKeys(e, list) && j < |list| && e.key(list[j]) == k
    ensures Unchained(e, list, k) == list[..j] + list[j + 1..]
  {
    if j > 0 {
      assert e.key(list[0]) != e.key(list[j]);
      UnchainedAt(e, list[1..], k, j - 1);
    }
  }

  /** Entry j of a chain is `it`, and `prev` is the one before it, if there is one. */
  ghost predicate Position(list: seq<Addr>, j: nat, prev: Addr, it: Addr) {
    j < |list| && list[j] == it && prev == if j == 0 then NULL else list[j - 1]
  }

  lemma OldNone(e: Env, t: Table)
    requires Valid(e, t)
    ensures !t.expanding ==> t.old_ == []
  {
    hide PrimaryOk, OldOk, Pow2;
  }

  lemma HomeIs(e: Env, t: Table, k: Key)
    requires var b := Bucket(e, t, k); if InOld(e, t, k) then b < |t.old_| else b < |t.primary|
    ensures var b := Bucket(e, t, k);
            Home(e, t, k) == if InOld(e, t, k) then t.old_[b] else t.primary[b]
  {
    hide InOld, Bucket;
  }

  /** The chain of a key shares no item with any other chain. */
  lemma HomeApart(e: Env, t: Table, k: Key)
    requires Valid(e, t)
    ensures forall b, x :: 0 <= b < |t.primary| && x in t.primary[b] && x in Home(e, t, k) ==>
      !InOld(e, t, k) && b == Bucket(e, t, k)
    ensures forall b, x :: 0 <= b < |t.old_| && x in t.old_[b] && x in Home(e, t, k) ==>
      InOld(e, t, k) && b == Bucket(e, t, k)
  {
    HomeAtHome(e, t, k);
    hide Pow2, Half, InOld, Bucket, DistinctKeys, Home;
  }

  lemma BucketBound(e: Env, t: Table)
    requires Valid(e, t) && t.expanding
    ensures t.power > 0 && |t.old_| == Pow2(t.power - 1) && t.bucket < |t.old_| && |t.primary| == Pow2(t.power)
  {
    hide Pow2, PrimaryOk, OldOk;
  }

  lemma SpellsLength(m: map<Addr, Addr>, heads: seq<Addr>, chains: seq<seq<Addr>>)
    requires Spells(m, heads, chains)
    ensures |heads| == |chains|
  {
  }

  /** All old chains but the one that was moved are still spelled. */
  lemma SpellsRest(m: map<Addr, Addr>, n: map<Addr, Addr>, heads: seq<Addr>, chains: seq<seq<Addr>>, b: nat)
    requires Spells(m, heads, chains) && b < |chains|
    requires forall c, x :: 0 <= c < |chains| && c != b && x in chains[c] ==> x !in chains[b]
    requires forall x :: x in m && x !in chains[b] ==> x in n && n[x] == m[x]
    ensures Spells(n, heads[b := NULL], chains[b := []])
  {
    var hs, cs := heads[b := NULL], chains[b := []];
    forall c | 0 <= c < |cs|
      ensures Chain(n, hs[c], cs[c])
    {
      if c != b {
        ChainFrame(m, n, heads[c], chains[c]);
      }
    }
  }

  /** The chain that is next to be migrated shares no item with any other chain. */
  lemma NextApart(e: Env, t: Table)
    requires Valid(e, t) && t.expanding
    ensures NoDup(t.old_[t.bucket])
    ensures forall b, x :: 0 <= b < |t.primary| && x in t.primary[b] ==> x !in t.old_[t.bucket]
    ensures forall b, x :: 0 <= b < |t.old_| && b != t.bucket && x in t.old_[b] ==> x !in t.old_[t.bucket]
  {
    hide Pow2, Half, InOld, Bucket, DistinctKeys, NoDup;
    DistinctNoDup(e, t.old_[t.bucket]);
    forall b, x | 0 <= b < |t.primary| && x in t.primary[b] ensures x !in t.old_[t.bucket] {
      assert !InOld(e, t, e.key(x));
    }
    forall b, x | 0 <= b < |t.old_| && b != t.bucket && x in t.old_[b] ensures x !in t.old_[t.bucket] {
      assert Bucket(e, t, e.key(x)) == b;
    }
  }
}
