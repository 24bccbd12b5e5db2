/** Whole runs of the slab allocator: chunks never overlap, and memory stays within its bound. */
module SlabRun {
  import opened Seqs
  import opened Slabs
  import opened SlabPool

  /** The chunks given out and not yet given back, class by class. */
  type Live = seq<multiset<Addr>>

  // ---- what always holds ------------------------------------------------------------------------

  ghost predicate ClassesOk(s: Pool, live: Live) {
    |live| == |s.classes| && forall c :: 1 <= c < |s.classes| ==> ClassOk(s.classes[c], live[c])
  }

  /** Slabs of different classes do not overlap. */
  predicate PoolApart(s: Pool) {
    forall c, d :: 1 <= c < |s.classes| && 1 <= d < |s.classes| && c != d ==>
      SlabsApart(s.classes[c], s.classes[d], false)
  }

  /** Memory allocated in advance is aligned, and what is left of it is in no slab. */
  predicate RegionOk(s: Pool) {
    s.region.Some? ==>
      && s.region.value.current > 0 && s.region.value.current % CHUNK_ALIGN_BYTES == 0
      && (s.region.value.avail > 0 ==> FreshIn(s, s.region.value.current, s.region.value.avail))
  }

  /** A block that overlaps no slab. */
  predicate FreshIn(s: Pool, ptr: Addr, len: nat) {
    forall c :: 1 <= c < |s.classes| ==> FreshFor(s.classes[c], ptr, len)
  }

  function Malloced(classes: seq<SlabClass>, c: nat): nat
    requires c <= |classes|
    decreases |classes| - c
  {
    if c == |classes| then 0 else |classes[c].slabs| * SlabLen(classes[c]) + Malloced(classes, c + 1)
  }

  /** One slab of each class that has any. */
  function OneEach(classes: seq<SlabClass>, c: nat): nat
    requires c <= |classes|
    decreases |classes| - c
  {
    if c == |classes| then 0
    else (if classes[c].slabs != [] then SlabLen(classes[c]) else 0) + OneEach(classes, c + 1)
  }

  predicate BudgetOk(s: Pool) {
    && |s.classes| > 0 && s.malloced == Malloced(s.classes, 1)
    && (s.limit != 0 ==> s.malloced <= s.limit + OneEach(s.classes, 1))
  }

  ghost predicate Valid(s: Pool, live: Live) {
    ClassesOk(s, live) && PoolApart(s) && RegionOk(s) && BudgetOk(s)
  }

  /** What malloc promises of a block it returns. */
  predicate Promised(s: Pool, id: int, given: Option<Addr>) {
    (1 <= id < |s.classes| && s.region.None? && given.Some?) ==>
      && given.value > 0 && given.value % CHUNK_ALIGN_BYTES == 0
      && FreshIn(s, given.value, SlabLen(s.classes[id]))
  }

  // ---- the budget -------------------------------------------------------------------------------

  lemma {:induction false} MallocedUpdate(classes: seq<SlabClass>, id: nat, q: SlabClass, c: nat)
    requires id < |classes| && c <= |classes| && SlabLen(q) == SlabLen(classes[id])
    requires |q.slabs| == |classes[id].slabs| || |q.slabs| == |classes[id].slabs| + 1
    ensures Malloced(classes[id := q], c) ==
            Malloced(classes, c) + (if c <= id && |q.slabs| != |classes[id].slabs| then SlabLen(q) else 0)
    decreases |classes| - c
  {
    hide SlabLen;
    if c < |classes| {
      MallocedUpdate(classes, id, q, c + 1);
      if c == id {
        assert (|classes[id].slabs| + 1) * SlabLen(q) == |classes[id].slabs| * SlabLen(q) + SlabLen(q);
      }
    }
  }

  lemma {:induction false} OneEachUpdate(classes: seq<SlabClass>, id: nat, q: SlabClass, c: nat)
    requires id < |classes| && c <= |classes| && SlabLen(q) == SlabLen(classes[id])
    requires |q.slabs| == |classes[id].slabs| || |q.slabs| == |classes[id].slabs| + 1
    ensures OneEach(classes[id := q], c) ==
            OneEach(classes, c) + (if c <= id && q.slabs != [] && classes[id].slabs == [] then SlabLen(q) else 0)
    decreases |classes| - c
  {
    hide SlabLen;
    if c < |classes| {
      OneEachUpdate(classes, id, q, c + 1);
    }
  }

  lemma AddSlabBudget(s: Pool, id: nat, ptr: Addr, region: Option<Region>)
    requires BudgetOk(s) && 1 <= id < |s.classes| && !OverLimit(s, s.classes[id])
    ensures BudgetOk(s.(malloced := s.malloced + SlabLen(s.classes[id]),
                        classes := s.classes[id := AddSlab(s.classes[id], ptr)], region := region))
  {
    var q := AddSlab(s.classes[id], ptr);
    assert SlabLen(q) == SlabLen(s.classes[id]);
    hide SlabLen;
    MallocedUpdate(s.classes, id, q, 1);
    OneEachUpdate(s.classes, id, q, 1);
  }

  lemma SameSlabsBudget(s: Pool, id: nat, q: SlabClass)
    requires BudgetOk(s) && 1 <= id < |s.classes|
    requires q.slabs == s.classes[id].slabs && SlabLen(q) == SlabLen(s.classes[id])
    ensures BudgetOk(s.(classes := s.classes[id := q]))
  {
    hide SlabLen;
    MallocedUpdate(s.classes, id, q, 1);
    OneEachUpdate(s.classes, id, q, 1);
  }

  // ---- changing one class -----------------------------------------------------------------------

  lemma SameSlabsValid(s: Pool, live: Live, id: nat, q: SlabClass, l: multiset<Addr>)
    requires Valid(s, live) && 1 <= id < |s.classes| && ClassOk(q, l)
    requires q.slabs == s.classes[id].slabs && q.size == s.classes[id].size && q.perslab == s.classes[id].perslab
    ensures Valid(s.(classes := s.classes[id := q]), live[id := l])
  {
    hide ClassOk, BudgetOk, PoolApart, RegionOk, FreshFor, SlabsApart;
    SameSlabsBudget(s, id, q);
    SameSlabsApart(s, id, q);
    SameSlabsRegion(s, id, q);
  }

  lemma SameSlabsApart(s: Pool, id: nat, q: SlabClass)
    requires PoolApart(s) && 1 <= id < |s.classes|
    requires q.slabs == s.classes[id].slabs && q.size == s.classes[id].size && q.perslab == s.classes[id].perslab
    ensures PoolApart(s.(classes := s.classes[id := q]))
  {
    var t := s.(classes := s.classes[id := q]);
    forall c, d | 1 <= c < |t.classes| && 1 <= d < |t.classes| && c != d
      ensures SlabsApart(t.classes[c], t.classes[d], false)
    {
      assert SlabsApart(s.classes[c], s.classes[d], false);
    }
  }

  lemma SameSlabsRegion(s: Pool, id: nat, q: SlabClass)
    requires RegionOk(s) && 1 <= id < |s.classes|
    requires q.slabs == s.classes[id].slabs && q.size == s.classes[id].size && q.perslab == s.classes[id].perslab
    ensures RegionOk(s.(classes := s.classes[id := q]))
  {
    var t := s.(classes := s.classes[id := q]);
    if s.region.Some? && s.region.value.avail > 0 {
      forall c | 1 <= c < |t.classes|
        ensures FreshFor(t.classes[c], s.region.value.current, s.region.value.avail)
      {
        assert FreshFor(s.classes[c], s.region.value.current, s.region.value.avail);
      }
    }
  }

  /** What is left of the memory allocated in advance when a block is taken off its front. */
  predicate CutFrom(was: Option<Region>, ptr: Addr, len: nat, region: Option<Region>) {
    region.Some? ==>
      && was.Some? && len <= was.value.avail && ptr == was.value.current
      && region == Some(Region(ptr + len, was.value.avail - len))
  }

  /** A block that can become a slab. */
  predicate Supplied(s: Pool, len: nat, ptr: Addr, region: Option<Region>) {
    ptr > 0 && ptr % CHUNK_ALIGN_BYTES == 0 && FreshIn(s, ptr, len) && CutFrom(s.region, ptr, len, region)
  }

  /** Memory for a slab is aligned and overlaps nothing, wherever it comes from. */
  lemma MemoryFresh(s: Pool, id: nat, given: Option<Addr>)
    requires RegionOk(s) && 1 <= id < |s.classes| && Promised(s, id, given)
    requires SlabLen(s.classes[id]) > 0 && SlabLen(s.classes[id]) % CHUNK_ALIGN_BYTES == 0
    ensures var len := SlabLen(s.classes[id]);
            var (ptr, region) := MemoryAllocate(s.region, len, given);
            ptr.Some? ==> Supplied(s, len, ptr.value, region)
  {
    hide SlabLen;
    var len := SlabLen(s.classes[id]);
    assert Align(len) == len;
    if s.region.Some? && len <= s.region.value.avail {
      var r := s.region.value;
      forall c | 1 <= c < |s.classes| ensures FreshFor(s.classes[c], r.current, len) {
        assert FreshFor(s.classes[c], r.current, r.avail);
      }
    }
  }

  lemma AddApart(s: Pool, id: nat, ptr: Addr)
    requires PoolApart(s) && 1 <= id < |s.classes| && FreshIn(s, ptr, SlabLen(s.classes[id]))
    ensures PoolApart(s.(classes := s.classes[id := AddSlab(s.classes[id], ptr)]))
  {
    var q := AddSlab(s.classes[id], ptr);
    var t := s.(classes := s.classes[id := q]);
    assert SlabLen(q) == SlabLen(s.classes[id]);
    hide SlabLen;
    forall c, d | 1 <= c < |t.classes| && 1 <= d < |t.classes| && c != d
      ensures SlabsApart(t.classes[c], t.classes[d], false)
    {
      assert SlabsApart(s.classes[c], s.classes[d], false);
      assert FreshFor(s.classes[c], ptr, SlabLen(q)) && FreshFor(s.classes[d], ptr, SlabLen(q));
    }
  }

  lemma AddRegion(s: Pool, id: nat, ptr: Addr, region: Option<Region>)
    requires RegionOk(s) && 1 <= id < |s.classes|
    requires CutFrom(s.region, ptr, SlabLen(s.classes[id]), region)
    requires SlabLen(s.classes[id]) % CHUNK_ALIGN_BYTES == 0
    ensures RegionOk(s.(classes := s.classes[id := AddSlab(s.classes[id], ptr)], region := region))
  {
    var q := AddSlab(s.classes[id], ptr);
    var t := s.(classes := s.classes[id := q], region := region);
    assert SlabLen(q) == SlabLen(s.classes[id]);
    hide SlabLen;
    if region.Some? && region.value.avail > 0 {
      forall c | 1 <= c < |t.classes|
        ensures FreshFor(t.classes[c], region.value.current, region.value.avail)
      {
        assert FreshFor(s.classes[c], s.region.value.current, s.region.value.avail);
      }
    }
  }

  lemma SlabMultiple(p: SlabClass)
    requires p.size > 0 && p.perslab > 0 && p.size % CHUNK_ALIGN_BYTES == 0
    ensures SlabLen(p) > 0 && SlabLen(p) % CHUNK_ALIGN_BYTES == 0
  {
    var k := p.size / CHUNK_ALIGN_BYTES;
    assert p.size == CHUNK_ALIGN_BYTES * k;
    assert SlabLen(p) == CHUNK_ALIGN_BYTES * (k * p.perslab);
    assert k * p.perslab > 0;
  }

  lemma ClassAt(s: Pool, live: Live, id: nat)
    requires ClassesOk(s, live) && 1 <= id < |s.classes|
    ensures ClassOk(s.classes[id], live[id])
  {
  }

  lemma NewSlabValid(s: Pool, live: Live, id: nat, given: Option<Addr>)
    requires Valid(s, live) && 1 <= id < |s.classes| && Promised(s, id, given) && !Stocked(s.classes[id])
    ensures NewSlab(s, id, given).Some? ==>
              Valid(NewSlab(s, id, given).value, live) && Stocked(NewSlab(s, id, given).value.classes[id])
  {
    hide MemoryAllocate, SlabLen, Stocked, Supplied, OverLimit, Promised, ClassesOk, PoolApart, RegionOk, BudgetOk;
    ClassAt(s, live, id);
    var p := s.classes[id];
    assert p.size > 0 && p.perslab > 0 && p.size % CHUNK_ALIGN_BYTES == 0;
    hide ClassOk;
    SlabMultiple(p);
    MemoryFresh(s, id, given);
    var (ptr, region) := MemoryAllocate(s.region, SlabLen(p), given);
    if !OverLimit(s, p) && ptr.Some? {
      AddParts(s, live, id, ptr.value, region);
    }
    hide Valid;
  }

  lemma AddParts(s: Pool, live: Live, id: nat, ptr: Addr, region: Option<Region>)
    requires Valid(s, live) && 1 <= id < |s.classes| && !Stocked(s.classes[id]) && !OverLimit(s, s.classes[id])
    requires Supplied(s, SlabLen(s.classes[id]), ptr, region)
    requires SlabLen(s.classes[id]) % CHUNK_ALIGN_BYTES == 0
    ensures var t := s.(malloced := s.malloced + SlabLen(s.classes[id]),
                        classes := s.classes[id := AddSlab(s.classes[id], ptr)], region := region);
            Valid(t, live) && Stocked(t.classes[id])
  {
    ClassAt(s, live, id);
    hide ClassOk, SlabLen, FreshFor, Malloced, OneEach, OverLimit, SlabsApart, Stocked;
    AddOk(s.classes[id], live[id], ptr);
    AddSlabBudget(s, id, ptr, region);
    AddApart(s, id, ptr);
    AddRegion(s, id, ptr, region);
    hide FreshIn, BudgetOk, AddSlab, Supplied;
  }

  // ---- alloc and free ---------------------------------------------------------------------------

  /** The live chunks after an allocation. */
  function LiveAfter(live: Live, id: int, a: Option<Addr>): Live {
    if a.Some? && 1 <= id < |live| then live[id := live[id] + multiset{a.value}] else live
  }

  lemma StockTaken(s: Pool, live: Live, id: nat)
    requires Valid(s, live) && 1 <= id < |s.classes| && Stocked(s.classes[id])
    ensures var p := s.classes[id];
            && (p.slots != [] || p.endFree > 0)
            && var (q, a) := TakeChunk(p);
            && Valid(s.(classes := s.classes[id := q]), live[id := live[id] + multiset{a}])
            && live[id][a] == 0 && a in Chunks(p)
  {
    ClassAt(s, live, id);
    TakeOk(s.classes[id], live[id]);
    hide Valid, ClassOk, TakeChunk, Chunks;
    var (q, a) := TakeChunk(s.classes[id]);
    SameSlabsValid(s, live, id, q, live[id] + multiset{a});
  }

  /** do_slabs_alloc keeps everything in order; a chunk that it gives is one of the class's own that was
      not live, and it gives none only when the class has none and there is no memory for a slab. */
  lemma AllocValid(s: Pool, live: Live, id: int, given: Option<Addr>)
    requires Valid(s, live) && Promised(s, id, given)
    ensures var (t, a) := Alloc(s, id, given);
            && Valid(t, LiveAfter(live, id, a))
            && (a.Some? ==> 1 <= id < |t.classes| && live[id][a.value] == 0 && a.value in Chunks(t.classes[id]))
            && (a.None? <==> !(1 <= id < |s.classes|)
                             || (!Stocked(s.classes[id]) && NewSlab(s, id, given).None?))
  {
    if 1 <= id < |s.classes| {
      assert |live| == |s.classes|;
      hide Valid, TakeChunk, NewSlab, Chunks, Stocked;
      if Stocked(s.classes[id]) {
        StockTaken(s, live, id);
        TakeSame(s.classes[id]);
      } else {
        NewSlabValid(s, live, id, given);
        var t := NewSlab(s, id, given);
        if t.Some? {
          NewSlabShape(s, id, given);
          StockTaken(t.value, live, id);
          TakeSame(t.value.classes[id]);
        }
      }
    }
  }

  lemma TakeSame(p: SlabClass)
    requires p.slots != [] || p.endFree > 0
    ensures Chunks(TakeChunk(p).0) == Chunks(p)
  {
  }

  lemma NewSlabShape(s: Pool, id: nat, given: Option<Addr>)
    requires id < |s.classes|
    ensures NewSlab(s, id, given).Some? ==> |NewSlab(s, id, given).value.classes| == |s.classes|
  {
  }

  /** do_slabs_free of a live chunk of the class. */
  lemma FreeValid(s: Pool, live: Live, id: nat, a: Addr)
    requires Valid(s, live) && 1 <= id < |s.classes| && a in live[id]
    ensures Valid(Free(s, id, a), live[id := live[id] - multiset{a}])
  {
    ClassAt(s, live, id);
    GiveOk(s.classes[id], live[id], a);
    hide Valid, ClassOk;
    var p := s.classes[id];
    SameSlabsValid(s, live, id, p.(slots := p.slots + [a]), live[id] - multiset{a});
  }

  // ---- runs -----------------------------------------------------------------------------------------

  /** given is what malloc would return. */
  datatype Op = DoAlloc(id: int, given: Option<Addr>) | DoFree(id: int, a: Addr)

  /** malloc keeps its promise, and only live chunks are freed, to their own class. */
  ghost predicate Allowed(s: Pool, live: Live, op: Op) {
    match op
    case DoAlloc(id, given) => Promised(s, id, given)
    case DoFree(id, a) => 1 <= id < |s.classes| && id < |live| && a in live[id]
  }

  ghost function Step(s: Pool, live: Live, op: Op): (Pool, Live)
    requires Allowed(s, live, op)
  {
    match op
    case DoAlloc(id, given) => (Alloc(s, id, given).0, LiveAfter(live, id, Alloc(s, id, given).1))
    case DoFree(id, a) => (Free(s, id, a), live[id := live[id] - multiset{a}])
  }

  ghost predicate AllAllowed(s: Pool, live: Live, ops: seq<Op>)
    decreases |ops|
  {
    ops == [] || (Allowed(s, live, ops[0])
                  && AllAllowed(Step(s, live, ops[0]).0, Step(s, live, ops[0]).1, ops[1..]))
  }

  ghost function Run(s: Pool, live: Live, ops: seq<Op>): (Pool, Live)
    requires AllAllowed(s, live, ops)
    decreases |ops|
  {
    if ops == [] then (s, live)
    else Run(Step(s, live, ops[0]).0, Step(s, live, ops[0]).1, ops[1..])
  }

  lemma {:induction false} RunValid(s: Pool, live: Live, ops: seq<Op>)
    requires Valid(s, live) && AllAllowed(s, live, ops)
    ensures var (t, l) := Run(s, live, ops); Valid(t, l)
    decreases |ops|
  {
    hide Valid, Promised, Alloc, Free;
    if ops != [] {
      match ops[0] {
        case DoAlloc(id, given) => AllocValid(s, live, id, given);
        case DoFree(id, a) => FreeValid(s, live, id, a);
      }
      RunValid(Step(s, live, ops[0]).0, Step(s, live, ops[0]).1, ops[1..]);
    }
  }

  // ---- what follows ---------------------------------------------------------------------------------

  lemma ChunkInSlab(p: SlabClass, live: multiset<Addr>, x: Addr) returns (i: nat)
    requires ClassOk(p, live) && x in Chunks(p)
    ensures i < |p.slabs| && p.slabs[i] <= x && x + p.size <= p.slabs[i] + SlabLen(p)
    ensures x in Row(p.slabs[i], p.size, p.perslab)
  {
    i := ChunkSlab(p.slabs, p.size, p.perslab, x);
    RowBounds(p.slabs[i], p.size, p.perslab, x);
  }

  /** Any two chunks, of one class or of two, are in different memory. */
  lemma ChunksNeverOverlap(s: Pool, live: Live, c: nat, d: nat, x: Addr, y: Addr)
    requires Valid(s, live) && 1 <= c < |s.classes| && 1 <= d < |s.classes|
    requires x in Chunks(s.classes[c]) && y in Chunks(s.classes[d]) && (c != d || x != y)
    ensures Apart(x, s.classes[c].size, y, s.classes[d].size)
  {
    ClassAt(s, live, c);
    ClassAt(s, live, d);
    var p, q := s.classes[c], s.classes[d];
    hide Chunks, Row, Shared;
    var i := ChunkInSlab(p, live[c], x);
    var j := ChunkInSlab(q, live[d], y);
    if c == d && i == j {
      RowApart(p.slabs[i], p.size, p.perslab, x, y);
    } else if c == d {
      assert Apart(p.slabs[i], SlabLen(p), q.slabs[j], SlabLen(q)) by {
        SameClassApart(p, i, j);
      }
      hide SlabLen;
    } else {
      assert SlabsApart(p, q, false);
      hide SlabLen;
    }
  }

  lemma SameClassApart(p: SlabClass, i: nat, j: nat)
    requires SlabsApart(p, p, true) && i < |p.slabs| && j < |p.slabs| && i != j
    ensures Apart(p.slabs[i], SlabLen(p), p.slabs[j], SlabLen(p))
  {
    hide SlabLen;
    if i < j {
      assert Apart(p.slabs[i], SlabLen(p), p.slabs[j], SlabLen(p));
    } else {
      assert Apart(p.slabs[j], SlabLen(p), p.slabs[i], SlabLen(p));
    }
  }

  /** In every run: live, free and never used chunks are all of each class's chunks, once each and
      slabs times perslab in number; and memory exceeds the limit by at most one slab a class. */
  lemma RunAccounts(s: Pool, live: Live, ops: seq<Op>, c: nat)
    requires Valid(s, live) && AllAllowed(s, live, ops)
    requires 1 <= c < |Run(s, live, ops).0.classes|
    ensures var (t, l) := Run(s, live, ops);
            && |l| == |t.classes|
            && var p := t.classes[c];
            && |l[c]| + |p.slots| + p.endFree == |p.slabs| * p.perslab
            && (forall x :: x in Chunks(p) ==>
                  x % CHUNK_ALIGN_BYTES == 0 && l[c][x] + multiset(p.slots)[x] + multiset(EndChunks(p))[x] == 1)
            && (t.limit != 0 ==> t.malloced <= t.limit + OneEach(t.classes, 1))
  {
    RunValid(s, live, ops);
    var (t, l) := Run(s, live, ops);
    ClassAt(t, l, c);
    ChunksAccounted(t.classes[c], l[c]);
    hide Run, ClassOk, Chunks, EndChunks, OneEach, Malloced, AllAllowed;
  }

  /** A class of chunks of some size, without slabs. */
  function NewClass(size: nat): SlabClass {
    SlabClass(size, if size == 0 then 0 else POWER_BLOCK / size, [], NULL, 0, [])
  }

  /** slabs_init's table with no slabs yet, in memory of its own or not. */
  function Started(sizes: seq<nat>, limit: nat, region: Option<Region>): Pool {
    Pool(limit, 0, seq(|sizes|, c requires 0 <= c < |sizes| => NewClass(sizes[c])), region)
  }

  lemma {:induction false} NoSlabsYet(classes: seq<SlabClass>, c: nat)
    requires c <= |classes| && forall d :: 0 <= d < |classes| ==> classes[d].slabs == []
    ensures Malloced(classes, c) == 0
    decreases |classes| - c
  {
    if c < |classes| {
      NoSlabsYet(classes, c + 1);
    }
  }

  lemma StartedValid(initial: nat, factor: real, limit: nat, region: Option<Region>)
    requires factor >= 1.0 && initial > 0
    requires region.Some? ==> region.value.current > 0 && region.value.current % CHUNK_ALIGN_BYTES == 0
    ensures var sizes := ClassSizes(initial, factor);
            Valid(Started(sizes, limit, region), seq(|sizes|, _ => multiset{}))
  {
    hide ClassSizes, PoolApart, RegionOk, BudgetOk, ClassOk;
    ClassTable(initial, factor);
    var sizes := ClassSizes(initial, factor);
    var s := Started(sizes, limit, region);
    var live: Live := seq(|sizes|, _ => multiset{});
    forall c | 1 <= c < |s.classes| ensures ClassOk(s.classes[c], live[c]) {
      NewClassOk(sizes[c]);
    }
    EmptyApart(s);
    EmptyBudget(s);
  }

  lemma NewClassOk(size: nat)
    requires 0 < size <= POWER_BLOCK && size % CHUNK_ALIGN_BYTES == 0
    ensures ClassOk(NewClass(size), multiset{})
  {
    PerSlab(size);
  }

  lemma EmptyApart(s: Pool)
    requires forall c :: 0 <= c < |s.classes| ==> s.classes[c].slabs == []
    requires s.region.Some? ==>
               s.region.value.current > 0 && s.region.value.current % CHUNK_ALIGN_BYTES == 0
    ensures PoolApart(s) && RegionOk(s)
  {
    hide SlabLen;
  }

  lemma EmptyBudget(s: Pool)
    requires |s.classes| > 0 && s.malloced == 0 && forall c :: 0 <= c < |s.classes| ==> s.classes[c].slabs == []
    ensures BudgetOk(s)
  {
    hide Malloced;
    NoSlabsYet(s.classes, 1);
  }

  lemma PerSlab(size: nat)
    requires 0 < size <= POWER_BLOCK
    ensures POWER_BLOCK / size > 0
  {
  }

  // ---- when a chunk is had, and of how many -----------------------------------------------------------

  /** No further slab can be had for a class: it has one and the limit forbids another, or there is no memory. */
  predicate Refused(s: Pool, p: SlabClass, given: Option<Addr>) {
    var slab := p.size * p.perslab;
    || (s.limit != 0 && s.malloced + slab > s.limit && p.slabs != [])
    || (if s.region.None? then given.None? else slab > s.region.value.avail)
  }

  lemma NewSlabExactly(s: Pool, id: nat, given: Option<Addr>)
    requires id < |s.classes|
    ensures var p := s.classes[id];
            && (NewSlab(s, id, given).None? <==> Refused(s, p, given))
            && (NewSlab(s, id, given).Some? ==>
                  var t := NewSlab(s, id, given).value;
                  && |t.classes| == |s.classes| && (forall c :: 0 <= c < |s.classes| && c != id ==>
                                                      t.classes[c] == s.classes[c])
                  && t.malloced == s.malloced + p.size * p.perslab && t.limit == s.limit
                  && t.classes[id] == p.(endPtr := t.classes[id].endPtr, endFree := p.perslab,
                                         slabs := t.classes[id].slabs)
                  && |t.classes[id].slabs| == |p.slabs| + 1)
  {
  }

  lemma TakeExactly(p: SlabClass)
    requires p.slots != [] || p.endFree > 0
    ensures var (q, _) := TakeChunk(p);
            && q == p.(slots := q.slots, endPtr := q.endPtr, endFree := q.endFree)
            && |q.slots| + q.endFree == |p.slots| + p.endFree - 1
  {
  }

  /** slabs_alloc gives a chunk exactly if the class has an idle one or a further slab can be had.  An idle chunk
      costs no memory; a new slab is taken only if there is none, and adds all its other chunks to the class.
      Other classes are not touched. */
  lemma AllocExactly(s: Pool, live: Live, id: nat, given: Option<Addr>)
    requires Valid(s, live) && 1 <= id < |s.classes|
    ensures var (t, a) := Alloc(s, id, given);
            var p := s.classes[id];
            var idle := |p.slots| + p.endFree;
            && (a.None? <==> idle == 0 && Refused(s, p, given)) && (a.None? ==> t == s)
            && |t.classes| == |s.classes| && t.limit == s.limit
            && (forall c :: 0 <= c < |s.classes| && c != id ==> t.classes[c] == s.classes[c])
            && var q := t.classes[id];
            && q.size == p.size && q.perslab == p.perslab
            && (idle > 0 ==> t.malloced == s.malloced && q.slabs == p.slabs && |q.slots| + q.endFree == idle - 1)
            && (a.Some? && idle == 0 ==>
                  && t.malloced == s.malloced + p.size * p.perslab && |q.slabs| == |p.slabs| + 1
                  && |q.slots| + q.endFree == p.perslab - 1)
  {
    hide Valid, NewSlab, TakeChunk, Refused, Stocked, Alloc;
    var p := s.classes[id];
    StockIs(s, live, id);
    if p.slots != [] || p.endFree > 0 {
      TakeExactly(p);
      AllocStocked(s, id, given);
    } else {
      NewSlabExactly(s, id, given);
      AllocNew(s, id, given);
      if !Refused(s, p, given) {
        TakeExactly(NewSlab(s, id, given).value.classes[id]);
      }
    }
  }

  lemma AllocStocked(s: Pool, id: nat, given: Option<Addr>)
    requires 1 <= id < |s.classes| && Stocked(s.classes[id])
    requires s.classes[id].slots != [] || s.classes[id].endFree > 0
    ensures var (q, a) := TakeChunk(s.classes[id]);
            Alloc(s, id, given) == (s.(classes := s.classes[id := q]), Some(a))
  {
    hide TakeChunk, NewSlab;
  }

  lemma AllocNew(s: Pool, id: nat, given: Option<Addr>)
    requires 1 <= id < |s.classes| && !Stocked(s.classes[id])
    requires NewSlab(s, id, given).Some? ==>
               var t := NewSlab(s, id, given).value; id < |t.classes| && t.classes[id].endFree > 0
    ensures NewSlab(s, id, given).None? ==> Alloc(s, id, given) == (s, None)
    ensures NewSlab(s, id, given).Some? ==>
              var t := NewSlab(s, id, given).value;
              var (q, a) := TakeChunk(t.classes[id]);
              Alloc(s, id, given) == (t.(classes := t.classes[id := q]), Some(a))
  {
    hide TakeChunk, NewSlab;
  }

  lemma StockIs(s: Pool, live: Live, id: nat)
    requires Valid(s, live) && 1 <= id < |s.classes|
    ensures var p := s.classes[id]; p.perslab > 0 && (Stocked(p) <==> p.slots != [] || p.endFree > 0)
  {
    ClassAt(s, live, id);
    hide Valid, Shared;
  }

  /** Sizes of classes and of slabs never change. */
  lemma {:induction false} RunSizes(s: Pool, live: Live, ops: seq<Op>, c: nat)
    requires Valid(s, live) && AllAllowed(s, live, ops) && 1 <= c < |s.classes|
    ensures var (t, _) := Run(s, live, ops);
            && c < |t.classes| && t.classes[c].size == s.classes[c].size && t.classes[c].perslab == s.classes[c].perslab
    decreases |ops|
  {
    if ops != [] {
      StepSizes(s, live, ops[0], c);
      hide Valid, Allowed, Step;
      RunSizes(Step(s, live, ops[0]).0, Step(s, live, ops[0]).1, ops[1..], c);
    }
  }

  lemma StepSizes(s: Pool, live: Live, op: Op, c: nat)
    requires Valid(s, live) && Allowed(s, live, op) && 1 <= c < |s.classes|
    ensures var (t, l) := Step(s, live, op);
            && Valid(t, l) && c < |t.classes| && t.classes[c].size == s.classes[c].size
            && t.classes[c].perslab == s.classes[c].perslab
  {
    match op
    case DoAlloc(id, given) =>
      AllocValid(s, live, id, given);
      if 1 <= id < |s.classes| {
        AllocExactly(s, live, id, given);
      }
      hide Valid, Alloc;
    case DoFree(id, a) =>
      FreeValid(s, live, id, a);
      hide Valid;
  }

  /** In every run of the allocator that slabs_init sets up, a slab of a class holds as many chunks of its size as
      one mebibyte has room for. */
  lemma SlabsFilled(initial: nat, factor: real, limit: nat, region: Option<Region>, ops: seq<Op>, c: nat)
    requires factor >= 1.0 && initial > 0
    requires region.Some? ==> region.value.current > 0 && region.value.current % CHUNK_ALIGN_BYTES == 0
    requires var sizes := ClassSizes(initial, factor);
             && 1 <= c < |sizes|
             && AllAllowed(Started(sizes, limit, region), seq(|sizes|, _ => multiset{}), ops)
    ensures var sizes := ClassSizes(initial, factor);
            var (t, _) := Run(Started(sizes, limit, region), seq(|sizes|, _ => multiset{}), ops);
            && c < |t.classes| && t.classes[c].size == sizes[c]
            && t.classes[c].perslab * sizes[c] <= 1048576 < (t.classes[c].perslab + 1) * sizes[c]
  {
    hide ClassSizes, Valid, AllAllowed, Run;
    StartedValid(initial, factor, limit, region);
    ClassTable(initial, factor);
    var sizes := ClassSizes(initial, factor);
    RunSizes(Started(sizes, limit, region), seq(|sizes|, _ => multiset{}), ops, c);
    Filled(sizes[c]);
  }

  lemma Filled(size: nat)
    requires size > 0
    ensures (POWER_BLOCK / size) * size <= 1048576 < (POWER_BLOCK / size + 1) * size
  {
  }
}
