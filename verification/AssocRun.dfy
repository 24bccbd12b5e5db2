/** Whole runs of the hash table: it is a map, and an expansion ends in time. */
module AssocRun {
  import opened Seqs
  import opened Assoc

  datatype Op =
    | Put(a: Addr, k: Key, memory: bool)   // assoc_insert of an item whose key is k; memory: room for a larger
                                           // table, if one is wanted
    | Drop(k: Key)                         // assoc_delete
    | Migrate                              // assoc_move_next_bucket

  /** The keys of all items, once a chunk has been filled with an item of key k. */
  function Named(e: Env, a: Addr, k: Key): Env {
    Env(x => if x == a then k else e.key(x), e.hash)
  }

  function EnvStep(e: Env, op: Op): Env {
    if op.Put? then Named(e, op.a, op.k) else e
  }

  function Step(e: Env, t: Table, op: Op): Table {
    match op
    case Put(a, k, memory) => Insert(Named(e, a, k), t, a, memory)
    case Drop(k) => Delete(e, t, k)
    case Migrate => MoveNext(e, t)
  }

  function Run(e: Env, t: Table, ops: seq<Op>): Table
    decreases |ops|
  {
    if ops == [] then t else Run(EnvStep(e, ops[0]), Step(e, t, ops[0]), ops[1..])
  }

  function EnvRun(e: Env, ops: seq<Op>): Env
    decreases |ops|
  {
    if ops == [] then e else EnvRun(EnvStep(e, ops[0]), ops[1..])
  }

  // ---- the map ------------------------------------------------------------------------------

  function MapStep(m: map<Key, Addr>, op: Op): map<Key, Addr> {
    match op
    case Put(a, k, _) => m[k := a]
    case Drop(k) => m - {k}
    case Migrate => m
  }

  function MapRun(m: map<Key, Addr>, ops: seq<Op>): map<Key, Addr>
    decreases |ops|
  {
    if ops == [] then m else MapRun(MapStep(m, ops[0]), ops[1..])
  }

  /** Callers insert a key only when it is absent, and an item only when it is not in the table; a chunk may
      hold one key now and another later. */
  ghost predicate New(m: map<Key, Addr>, op: Op) {
    op.Put? ==> op.k !in m && op.a !in m.Values
  }

  ghost predicate Allowed(m: map<Key, Addr>, ops: seq<Op>)
    decreases |ops|
  {
    ops == [] || (New(m, ops[0]) && Allowed(MapStep(m, ops[0]), ops[1..]))
  }

  ghost predicate Stands(e: Env, t: Table, m: map<Key, Addr>) {
    Valid(e, t) && t.count == |m|
    && forall k :: Find(e, t, k) == if k in m then Some(m[k]) else None
  }

  lemma {:induction false} PushAllShape(e: Env, t: Table, chain: seq<Addr>)
    ensures var u := PushAll(e, t, chain);
      u.power == t.power && u.expanding == t.expanding && u.bucket == t.bucket && u.count == t.count
    decreases |chain|
  {
    hide Pow2;
    if chain != [] {
      PushAllShape(e, Push(e, t, chain[0]), chain[1..]);
    }
  }

  lemma MoveNextShape(e: Env, t: Table)
    requires Valid(e, t)
    ensures var u := MoveNext(e, t);
      && u.count == t.count && u.power == t.power
      && (t.expanding ==> u.bucket == t.bucket + 1 && (u.expanding <==> t.bucket + 1 != Pow2(Half(t))))
      && (!t.expanding ==> u == t)
  {
    hide PrimaryOk, OldOk, Pow2, PushAll;
    if t.expanding {
      PushAllShape(e, t, t.old_[t.bucket]);
    }
  }

  lemma InsertShape(e: Env, t: Table, a: Addr, memory: bool)
    requires Valid(e, t) && Find(e, t, e.key(a)).None?
    ensures var u := Insert(e, t, a, memory);
      u.count == t.count + 1 && (t.expanding ==> u.expanding && u.power == t.power && u.bucket == t.bucket)
  {
    hide Valid, MoveNext, Pow2, Find;
    AddHolds(e, t, a, a);
    var u := Add(e, t, a);
    if Overfull(u) && memory {
      WidenedFinds(e, u, "");
      MoveNextShape(e, Widened(u));
    }
  }

  lemma DeleteShape(e: Env, t: Table, k: Key)
    ensures var u := Delete(e, t, k);
      && u.count == t.count - (if Find(e, t, k).Some? then 1 else 0)
      && u.expanding == t.expanding && u.power == t.power && u.bucket == t.bucket
  {
    hide Pow2, Find;
  }

  lemma PutStands(e: Env, t: Table, m: map<Key, Addr>, a: Addr, memory: bool)
    requires Stands(e, t, m) && e.key(a) !in m
    ensures Stands(e, Insert(e, t, a, memory), m[e.key(a) := a])
  {
    hide Valid, Find, Insert;
    assert Find(e, t, e.key(a)).None?;
    InsertShape(e, t, a, memory);
    InsertFinds(e, t, a, memory, "");
    forall k
      ensures Find(e, Insert(e, t, a, memory), k) == if k in m[e.key(a) := a] then Some(m[e.key(a) := a][k]) else None
    {
      InsertFinds(e, t, a, memory, k);
    }
  }

  lemma DropStands(e: Env, t: Table, m: map<Key, Addr>, j: Key)
    requires Stands(e, t, m)
    ensures Stands(e, Delete(e, t, j), m - {j})
  {
    hide Valid, Find, Holds, Delete, Named;
    assert Find(e, t, j).Some? <==> j in m;
    DeleteShape(e, t, j);
    DeleteFinds(e, t, j, "");
    DropSize(m, j);
    forall k
      ensures Find(e, Delete(e, t, j), k) == if k in m - {j} then Some((m - {j})[k]) else None
    {
      DropFinds(e, t, m, j, k);
    }
  }

  lemma DropFinds(e: Env, t: Table, m: map<Key, Addr>, j: Key, k: Key)
    requires Stands(e, t, m)
    ensures Find(e, Delete(e, t, j), k) == if k in m - {j} then Some((m - {j})[k]) else None
  {
    hide Valid, Find, Holds, Delete, Named;
    DeleteFinds(e, t, j, k);
  }

  lemma DropSize(m: map<Key, Addr>, j: Key)
    ensures |m - {j}| == |m| - (if j in m then 1 else 0)
  {
    var n := m - {j};
    if j in m {
      assert m.Keys == n.Keys + {j};
    } else {
      assert m == n;
    }
  }

  lemma MigrateStands(e: Env, t: Table, m: map<Key, Addr>)
    requires Stands(e, t, m)
    ensures Stands(e, MoveNext(e, t), m)
  {
    hide Valid, Find, MoveNext;
    MoveNextShape(e, t);
    MoveNextFinds(e, t, "");
    forall k
      ensures Find(e, MoveNext(e, t), k) == if k in m then Some(m[k]) else None
    {
      MoveNextFinds(e, t, k);
    }
  }

  /** A key written into a chunk that is not in the table changes nothing in it. */
  lemma NamedStands(e: Env, t: Table, m: map<Key, Addr>, a: Addr, k: Key)
    requires Stands(e, t, m) && a !in m.Values
    ensures Stands(Named(e, a, k), t, m)
  {
    hide Valid, Find, Holds, Delete, Named;
    var f := Named(e, a, k);
    NotHeld(e, t, m, a);
    NamedValid(e, t, a, k);
    forall j ensures Find(f, t, j) == if j in m then Some(m[j]) else None {
      NamedFinds(e, t, a, k, j);
    }
  }

  lemma NotHeld(e: Env, t: Table, m: map<Key, Addr>, a: Addr)
    requires Stands(e, t, m) && a !in m.Values
    ensures !Holds(t, a)
  {
    hide Valid, Find, Holds, Delete, Named;
    FindIff(e, t, e.key(a), a);
    if e.key(a) in m {
      assert m[e.key(a)] in m.Values;
    }
  }

  lemma NamedValid(e: Env, t: Table, a: Addr, k: Key)
    requires Valid(e, t) && !Holds(t, a)
    ensures Valid(Named(e, a, k), t)
  {
    hide Pow2, Half;
    var f := Named(e, a, k);
    forall j ensures InOld(f, t, j) == InOld(e, t, j) && Bucket(f, t, j) == Bucket(e, t, j) {
    }
    hide InOld, Bucket;
    NamedPrimary(e, t, a, k);
    NamedOld(e, t, a, k);
    hide PrimaryOk, OldOk, Holds;
  }

  lemma NamedPrimary(e: Env, t: Table, a: Addr, k: Key)
    requires PrimaryOk(e, t) && !Holds(t, a)
    requires forall j ::
               InOld(Named(e, a, k), t, j) == InOld(e, t, j) && Bucket(Named(e, a, k), t, j) == Bucket(e, t, j)
    ensures PrimaryOk(Named(e, a, k), t)
  {
    hide InOld, Bucket;
    var f := Named(e, a, k);
    forall b | 0 <= b < |t.primary| ensures DistinctKeys(f, t.primary[b]) {
      assert DistinctKeys(e, t.primary[b]) && a !in t.primary[b];
    }
  }

  lemma NamedOld(e: Env, t: Table, a: Addr, k: Key)
    requires OldOk(e, t) && !Holds(t, a)
    requires forall j ::
               InOld(Named(e, a, k), t, j) == InOld(e, t, j) && Bucket(Named(e, a, k), t, j) == Bucket(e, t, j)
    ensures OldOk(Named(e, a, k), t)
  {
    hide InOld, Bucket;
    var f := Named(e, a, k);
    forall b | 0 <= b < |t.old_| ensures DistinctKeys(f, t.old_[b]) {
      assert DistinctKeys(e, t.old_[b]) && a !in t.old_[b];
    }
  }

  lemma NamedFinds(e: Env, t: Table, a: Addr, k: Key, j: Key)
    requires !Holds(t, a)
    ensures Find(Named(e, a, k), t, j) == Find(e, t, j)
  {
    assert Home(Named(e, a, k), t, j) == Home(e, t, j);
    assert a !in Home(e, t, j);
    hide Home, Holds;
    NamedSearch(e, a, k, Home(e, t, j), j);
  }

  lemma {:induction false} NamedSearch(e: Env, a: Addr, k: Key, chain: seq<Addr>, j: Key)
    requires a !in chain
    ensures Search(Named(e, a, k), chain, j) == Search(e, chain, j)
  {
    if chain != [] {
      NamedSearch(e, a, k, chain[1..], j);
    }
  }

  lemma StepStands(e: Env, t: Table, m: map<Key, Addr>, op: Op)
    requires Stands(e, t, m) && New(m, op)
    ensures Stands(EnvStep(e, op), Step(e, t, op), MapStep(m, op))
  {
    hide Stands, Insert, Delete, MoveNext;
    match op
    case Put(a, k, memory) =>
      NamedStands(e, t, m, a, k);
      PutStands(Named(e, a, k), t, m, a, memory);
    case Drop(k) => DropStands(e, t, m, k);
    case Migrate => MigrateStands(e, t, m);
  }

  /** Whatever the interleaving of insertions, deletions and migrations, and whatever keys a chunk holds in
      turn, every lookup in the table gives what the map gives, and hash_items counts the map. */
  lemma {:induction false} RunStands(e: Env, t: Table, m: map<Key, Addr>, ops: seq<Op>)
    requires Stands(e, t, m) && Allowed(m, ops)
    ensures Stands(EnvRun(e, ops), Run(e, t, ops), MapRun(m, ops))
    decreases |ops|
  {
    hide Stands, Step, MapStep, New, EnvStep;
    if ops != [] {
      StepStands(e, t, m, ops[0]);
      RunStands(EnvStep(e, ops[0]), Step(e, t, ops[0]), MapStep(m, ops[0]), ops[1..]);
    }
  }

  /** assoc_init */
  function Init(power: nat): Table {
    Table(power, false, 0, seq(Pow2(power), _ => []), [], 0)
  }

  lemma InitStands(e: Env, power: nat)
    ensures Stands(e, Init(power), map[])
  {
    ModHolds(e, Init(power));
  }

  lemma ModHolds(e: Env, t: Table)
    requires forall b :: 0 <= b < |t.primary| ==> t.primary[b] == []
    requires t.old_ == []
    ensures forall k :: Find(e, t, k) == None
  {
  }

  // ---- how long an expansion takes ----------------------------------------------------------------

  function Migrations(ops: seq<Op>): nat {
    if ops == [] then 0 else (if ops[0].Migrate? then 1 else 0) + Migrations(ops[1..])
  }

  /** At least one bucket is migrated before each insertion, counted from the one before it. */
  predicate Paced(ops: seq<Op>, armed: bool)
    decreases |ops|
  {
    ops == []
    || (match ops[0]
        case Put(_, _, _) => armed && Paced(ops[1..], false)
        case Drop(_) => Paced(ops[1..], armed)
        case Migrate => Paced(ops[1..], true))
  }

  /** An expansion out of `half` buckets that has kept up with the insertions. */
  ghost predicate OnTime(t: Table, half: nat, armed: bool) {
    t.expanding && Pow2(Half(t)) == half && t.count + (if armed then 1 else 0) <= half * 3 / 2 + t.bucket
  }

  /** Over any paced run an expansion of 2^n buckets stays on time until it has made 2^n
      migrations in all; the last of these ends it, the table is then twice as large and still
      short of the 3/2 load at which the next expansion would begin. */
  lemma {:induction false} ExpansionEndsInTime(
      e: Env, t: Table, m: map<Key, Addr>, ops: seq<Op>, half: nat, armed: bool)
    requires Stands(e, t, m) && Allowed(m, ops) && Paced(ops, armed) && OnTime(t, half, armed)
    requires Migrations(ops) <= half - t.bucket
    requires Migrations(ops) == half - t.bucket ==> ops != [] && ops[|ops| - 1].Migrate?
    ensures var u := Run(e, t, ops);
      && u.power == t.power && u.count <= Pow2(u.power) * 3 / 2
      && (if Migrations(ops) < half - t.bucket
          then u.expanding && u.bucket == t.bucket + Migrations(ops)
          else !u.expanding)
    decreases |ops|
  {
    hide Stands, Pow2, Step, MapStep, New, EnvStep;
    PowerOfTwice(e, t, m);
    if ops != [] {
      var u, op := Step(e, t, ops[0]), ops[0];
      StepStands(e, t, m, op);
      StepShape(e, t, m, op);
      if u.expanding {
        if ops[1..] != [] {
          assert ops[1..][|ops| - 2] == ops[|ops| - 1];
        }
        ExpansionEndsInTime(EnvStep(e, op), u, MapStep(m, op), ops[1..], half,
                            match op case Put(_, _, _) => false case Drop(_) => armed case Migrate => true);
      } else {
        LastMigration(ops);
      }
    }
  }

  lemma PowerOfTwice(e: Env, t: Table, m: map<Key, Addr>)
    requires Stands(e, t, m) && t.expanding
    ensures Pow2(t.power) == 2 * Pow2(Half(t)) && t.bucket < Pow2(Half(t))
  {
    hide Find, PrimaryOk, OldOk;
  }

  lemma StepShape(e: Env, t: Table, m: map<Key, Addr>, op: Op)
    requires Stands(e, t, m) && t.expanding && New(m, op)
    ensures var u := Step(e, t, op);
      && u.power == t.power
      && (match op
          case Put(_, _, _) => u.expanding && u.bucket == t.bucket && u.count == t.count + 1
          case Drop(_) => u.expanding && u.bucket == t.bucket && u.count <= t.count
          case Migrate =>
            u.bucket == t.bucket + 1 && u.count == t.count && (u.expanding <==> u.bucket != Pow2(Half(t))))
  {
    hide Valid, Find, Insert, Delete, MoveNext, Pow2;
    match op {
      case Put(a, k, memory) =>
        NamedStands(e, t, m, a, k);
        InsertShape(Named(e, a, k), t, a, memory);
      case Drop(k) => DeleteShape(e, t, k);
      case Migrate => MoveNextShape(e, t);
    }
  }

  /** If the first migration is the only one, and the last step, there is no other step. */
  lemma LastMigration(ops: seq<Op>)
    requires ops != [] && ops[0].Migrate? && ops[|ops| - 1].Migrate? && Migrations(ops) == 1
    ensures ops == [ops[0]]
  {
    if |ops| > 1 {
      assert ops[1..][|ops| - 2] == ops[|ops| - 1];
      LastCounts(ops[1..]);
    }
  }

  lemma {:induction false} LastCounts(ops: seq<Op>)
    requires ops != [] && ops[|ops| - 1].Migrate?
    ensures Migrations(ops) >= 1
  {
    if |ops| > 1 {
      assert ops[1..][|ops| - 2] == ops[|ops| - 1];
      LastCounts(ops[1..]);
    }
  }

  /** The insertion that starts an expansion leaves it on time, its first migration made. */
  lemma ExpansionStarts(e: Env, t: Table, m: map<Key, Addr>, a: Addr)
    requires Stands(e, t, m) && !t.expanding && e.key(a) !in m && t.count == Pow2(t.power) * 3 / 2 && t.power > 0
    ensures var u := Insert(e, t, a, true);
      u.power == t.power + 1 && u.bucket == 1 && OnTime(u, Pow2(t.power), false)
  {
    hide Valid, MoveNext, Find;
    AddHolds(e, t, a, a);
    var u := Add(e, t, a);
    InsertIs(e, t, a, true);
    WidenedFinds(e, u, "");
    MoveNextShape(e, Widened(u));
  }
}
