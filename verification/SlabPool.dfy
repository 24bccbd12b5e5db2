/** The slab allocator (slabs.c): slabs cut into chunks, free lists, and the memory limit. */
module SlabPool {
  import opened Seqs
  import opened Slabs

  type Addr = int

  const NULL: Addr := 0

  /** slabclass_t: the stack of free chunks, the unused end of the newest slab, and all slabs. */
  datatype SlabClass = SlabClass(
    size: nat, perslab: nat, slots: seq<Addr>, endPtr: Addr, endFree: nat, slabs: seq<Addr>)

  /** What is left of memory allocated in advance. */
  datatype Region = Region(current: Addr, avail: nat)

  /** limit is mem_limit, 0 for none; class 0 is not used. */
  datatype Pool = Pool(limit: nat, malloced: nat, classes: seq<SlabClass>, region: Option<Region>)

  // ---- the functions of slabs.c -----------------------------------------------------------------

  function SlabLen(p: SlabClass): nat {
    p.size * p.perslab
  }

  /** memory_allocate; without memory in advance, given is what malloc returns. */
  function MemoryAllocate(region: Option<Region>, size: nat, given: Option<Addr>): (Option<Addr>, Option<Region>) {
    if region.None? then (given, None)
    else
      var r := region.value;
      if size > r.avail then (None, region)
      else
        var s := Align(size);
        (Some(r.current), Some(Region(r.current + s, if s < r.avail then r.avail - s else 0)))
  }

  function AddSlab(p: SlabClass, ptr: Addr): SlabClass {
    p.(endPtr := ptr, endFree := p.perslab, slabs := p.slabs + [ptr])
  }

  predicate OverLimit(s: Pool, p: SlabClass) {
    s.limit != 0 && s.malloced + SlabLen(p) > s.limit && p.slabs != []
  }

  /** do_slabs_newslab; None when there is no memory. */
  function NewSlab(s: Pool, id: nat, given: Option<Addr>): Option<Pool>
    requires id < |s.classes|
  {
    var p := s.classes[id];
    if OverLimit(s, p) then None
    else
      var (ptr, region) := MemoryAllocate(s.region, SlabLen(p), given);
      if ptr.None? then None
      else
        Some(s.(malloced := s.malloced + SlabLen(p), classes := s.classes[id := AddSlab(p, ptr.value)],
                region := region))
  }

  /** A chunk off the free list, or the first one of the unused end. */
  function TakeChunk(p: SlabClass): (r: (SlabClass, Addr))
    requires p.slots != [] || p.endFree > 0
  {
    if p.slots != [] then
      var n := |p.slots| - 1;
      (p.(slots := p.slots[..n]), p.slots[n])
    else
      (p.(endFree := p.endFree - 1, endPtr := if p.endFree - 1 != 0 then p.endPtr + p.size else NULL), p.endPtr)
  }

  predicate Stocked(p: SlabClass) {
    p.endPtr != NULL || p.slots != []
  }

  /** do_slabs_alloc */
  function Alloc(s: Pool, id: int, given: Option<Addr>): (Pool, Option<Addr>) {
    if id < 1 || id >= |s.classes| then (s, None)
    else
      var t := if Stocked(s.classes[id]) then Some(s) else NewSlab(s, id, given);
      if t.None? then (s, None)
      else
        var p := t.value.classes[id];
        if p.slots == [] && p.endFree == 0 then (t.value, None)
        else
          var (q, a) := TakeChunk(p);
          (t.value.(classes := t.value.classes[id := q]), Some(a))
  }

  /** do_slabs_free */
  function Free(s: Pool, id: int, a: Addr): Pool {
    if id < 1 || id >= |s.classes| then s
    else s.(classes := s.classes[id := s.classes[id].(slots := s.classes[id].slots + [a])])
  }

  // ---- chunks --------------------------------------------------------------------------------------

  /** n chunks in a row. */
  function Row(start: Addr, size: nat, n: nat): seq<Addr>
    decreases n
  {
    if n == 0 then [] else [start] + Row(start + size, size, n - 1)
  }

  function AllChunks(slabs: seq<Addr>, size: nat, perslab: nat): seq<Addr> {
    if slabs == [] then [] else Row(slabs[0], size, perslab) + AllChunks(slabs[1..], size, perslab)
  }

  function Chunks(p: SlabClass): seq<Addr> {
    AllChunks(p.slabs, p.size, p.perslab)
  }

  /** The chunks at the end of the newest slab that were never given out. */
  function EndChunks(p: SlabClass): seq<Addr> {
    Row(p.endPtr, p.size, p.endFree)
  }

  predicate Apart(a: Addr, la: nat, b: Addr, lb: nat) {
    a + la <= b || b + lb <= a
  }

  /** Every chunk of the class's slabs is live, on the free list or at the unused end, and only one of these. */
  predicate Shared(p: SlabClass, live: multiset<Addr>) {
    live + multiset(p.slots) + multiset(EndChunks(p)) == multiset(Chunks(p))
  }

  predicate EndOk(p: SlabClass) {
    && p.size > 0 && p.perslab > 0 && p.size % CHUNK_ALIGN_BYTES == 0 && p.endPtr >= 0
    && (p.endPtr != NULL <==> p.endFree > 0)
  }

  predicate SlabsAligned(p: SlabClass) {
    forall i :: 0 <= i < |p.slabs| ==> p.slabs[i] > 0 && p.slabs[i] % CHUNK_ALIGN_BYTES == 0
  }

  predicate SlabsApart(p: SlabClass, q: SlabClass, same: bool) {
    forall i, j :: 0 <= i < |p.slabs| && 0 <= j < |q.slabs| && (same ==> i < j) ==>
      Apart(p.slabs[i], SlabLen(p), q.slabs[j], SlabLen(q))
  }

  predicate ClassOk(p: SlabClass, live: multiset<Addr>) {
    EndOk(p) && SlabsAligned(p) && SlabsApart(p, p, true) && Shared(p, live)
  }

  lemma {:induction false} RowBounds(start: Addr, size: nat, n: nat, x: Addr)
    requires x in Row(start, size, n)
    ensures n > 0 && start <= x && x + size <= start + size * n
    decreases n
  {
    if x != start {
      assert x in Row(start + size, size, n - 1);
      RowBounds(start + size, size, n - 1, x);
    }
    assert size * n == size + size * (n - 1);
    if n > 0 {
      RowSpan(size, n - 1);
    }
  }

  lemma RowSpan(size: nat, n: nat)
    ensures size * n >= 0
  {
  }

  lemma {:induction false} RowApart(start: Addr, size: nat, n: nat, x: Addr, y: Addr)
    requires x in Row(start, size, n) && y in Row(start, size, n) && x != y
    ensures Apart(x, size, y, size)
    decreases n
  {
    var rest := Row(start + size, size, n - 1);
    if x == start {
      assert y in rest;
      RowBounds(start + size, size, n - 1, y);
    } else if y == start {
      assert x in rest;
      RowBounds(start + size, size, n - 1, x);
    } else {
      RowApart(start + size, size, n - 1, x, y);
    }
  }

  lemma {:induction false} RowNoDup(start: Addr, size: nat, n: nat)
    requires size > 0
    ensures NoDup(Row(start, size, n)) && |Row(start, size, n)| == n
    decreases n
  {
    if n > 0 {
      var rest := Row(start + size, size, n - 1);
      RowNoDup(start + size, size, n - 1);
      if start in rest {
        RowBounds(start + size, size, n - 1, start);
      }
      assert ([start] + rest)[1..] == rest;
    }
  }

  lemma {:induction false} RowAligned(start: Addr, size: nat, n: nat, x: Addr)
    requires x in Row(start, size, n) && start % CHUNK_ALIGN_BYTES == 0 && size % CHUNK_ALIGN_BYTES == 0
    ensures x % CHUNK_ALIGN_BYTES == 0
    decreases n
  {
    if x != start {
      RowAligned(start + size, size, n - 1, x);
    }
  }

  /** The slab that a chunk is cut from. */
  lemma {:induction false} ChunkSlab(slabs: seq<Addr>, size: nat, perslab: nat, x: Addr) returns (i: nat)
    requires x in AllChunks(slabs, size, perslab)
    ensures i < |slabs| && x in Row(slabs[i], size, perslab)
    decreases |slabs|
  {
    if x in Row(slabs[0], size, perslab) {
      i := 0;
    } else {
      i := ChunkSlab(slabs[1..], size, perslab, x);
      i := i + 1;
    }
  }

  lemma {:induction false} ChunksAppend(slabs: seq<Addr>, ptr: Addr, size: nat, perslab: nat)
    ensures AllChunks(slabs + [ptr], size, perslab) == AllChunks(slabs, size, perslab) + Row(ptr, size, perslab)
    decreases |slabs|
  {
    hide Row;
    if slabs == [] {
      assert slabs + [ptr] == [ptr] && [ptr][1..] == [];
      assert AllChunks([], size, perslab) == [];
    } else {
      ChunksAppend(slabs[1..], ptr, size, perslab);
      assert (slabs + [ptr])[1..] == slabs[1..] + [ptr];
    }
  }

  /** A class has slabs times perslab chunks. */
  lemma {:induction false} ChunksNumber(slabs: seq<Addr>, size: nat, perslab: nat)
    requires size > 0
    ensures |AllChunks(slabs, size, perslab)| == |slabs| * perslab
    decreases |slabs|
  {
    if slabs != [] {
      ChunksNumber(slabs[1..], size, perslab);
      RowNoDup(slabs[0], size, perslab);
      assert |slabs| * perslab == perslab + |slabs[1..]| * perslab;
    }
  }

  predicate RowsApart(slabs: seq<Addr>, len: nat) {
    forall i, j :: 0 <= i < j < |slabs| ==> Apart(slabs[i], len, slabs[j], len)
  }

  lemma NotInOthers(slabs: seq<Addr>, size: nat, perslab: nat, x: Addr)
    requires size > 0 && slabs != [] && RowsApart(slabs, size * perslab) && x in Row(slabs[0], size, perslab)
    ensures x !in AllChunks(slabs[1..], size, perslab)
  {
    hide Row, AllChunks;
    if x in AllChunks(slabs[1..], size, perslab) {
      var i := ChunkSlab(slabs[1..], size, perslab, x);
      assert Apart(slabs[0], size * perslab, slabs[i + 1], size * perslab);
      RowBounds(slabs[0], size, perslab, x);
      RowBounds(slabs[i + 1], size, perslab, x);
    }
  }

  lemma {:induction false} ChunksNoDup(slabs: seq<Addr>, size: nat, perslab: nat)
    requires size > 0 && RowsApart(slabs, size * perslab)
    ensures NoDup(AllChunks(slabs, size, perslab))
    decreases |slabs|
  {
    hide NoDup, Row;
    if slabs != [] {
      var row, rest := Row(slabs[0], size, perslab), AllChunks(slabs[1..], size, perslab);
      RowNoDup(slabs[0], size, perslab);
      ChunksNoDup(slabs[1..], size, perslab);
      forall x | x in row ensures x !in rest {
        NotInOthers(slabs, size, perslab, x);
      }
      NoDupAppend(row, rest);
    } else {
      EmptyNoDup();
    }
  }

  lemma EmptyNoDup()
    ensures NoDup<Addr>([])
  {
  }

  // ---- one class --------------------------------------------------------------------------------

  lemma TakeSlotShared(p: SlabClass, live: multiset<Addr>)
    requires Shared(p, live) && p.slots != []
    ensures var (q, a) := TakeChunk(p); Shared(q, live + multiset{a})
  {
    hide Chunks, EndChunks;
    var n := |p.slots| - 1;
    assert p.slots == p.slots[..n] + [p.slots[n]];
    var q := TakeChunk(p).0;
    assert EndChunks(q) == EndChunks(p) && Chunks(q) == Chunks(p) by {
      SameChunks(p, q);
    }
  }

  lemma SameChunks(p: SlabClass, q: SlabClass)
    requires q == p.(slots := q.slots)
    ensures EndChunks(q) == EndChunks(p) && Chunks(q) == Chunks(p)
  {
  }

  lemma TakeEndShared(p: SlabClass, live: multiset<Addr>)
    requires Shared(p, live) && p.slots == [] && p.endFree > 0
    ensures var (q, a) := TakeChunk(p); Shared(q, live + multiset{a})
  {
    var (q, a) := TakeChunk(p);
    assert EndChunks(p) == [a] + EndChunks(q);
    assert Chunks(q) == Chunks(p);
    hide Chunks, EndChunks;
  }

  lemma TakeOk(p: SlabClass, live: multiset<Addr>)
    requires ClassOk(p, live) && Stocked(p)
    ensures p.slots != [] || p.endFree > 0
    ensures var (q, a) := TakeChunk(p);
            && ClassOk(q, live + multiset{a}) && a in multiset(Chunks(p)) && live[a] == 0
            && q.slabs == p.slabs && q.size == p.size && q.perslab == p.perslab
  {
    hide Chunks, EndChunks, NoDup, Shared, SlabsAligned, SlabsApart, Apart;
    var (q, a) := TakeChunk(p);
    assert SlabLen(q) == SlabLen(p);
    if p.slots != [] {
      TakeSlotShared(p, live);
    } else {
      TakeEndShared(p, live);
    }
    assert SlabsAligned(q) && SlabsApart(q, q, true) by {
      SameSlabs(p, q);
    }
    TakenOnce(p, q, live, a);
  }

  lemma SameSlabs(p: SlabClass, q: SlabClass)
    requires SlabsAligned(p) && SlabsApart(p, p, true) && q.slabs == p.slabs && SlabLen(q) == SlabLen(p)
    ensures SlabsAligned(q) && SlabsApart(q, q, true)
  {
    hide SlabLen;
  }

  /** A chunk that is live now and is one of the class's was not live before. */
  lemma TakenOnce(p: SlabClass, q: SlabClass, live: multiset<Addr>, a: Addr)
    requires SlabsApart(p, p, true) && p.size > 0 && Shared(q, live + multiset{a})
    requires q.slabs == p.slabs && q.size == p.size && q.perslab == p.perslab
    ensures a in multiset(Chunks(p)) && live[a] == 0
  {
    assert Chunks(q) == Chunks(p);
    ChunksNoDup(p.slabs, p.size, p.perslab);
    NoDupCount(Chunks(p), a);
    hide Chunks, EndChunks, NoDup;
    assert (live + multiset{a})[a] <= multiset(Chunks(q))[a];
  }

  lemma GiveOk(p: SlabClass, live: multiset<Addr>, a: Addr)
    requires ClassOk(p, live) && a in live
    ensures ClassOk(p.(slots := p.slots + [a]), live - multiset{a})
  {
    var q := p.(slots := p.slots + [a]);
    SameChunks(p, q);
    hide Chunks, EndChunks;
    assert SlabsApart(q, q, true);
  }

  /** A block of memory that overlaps no slab of a class. */
  predicate FreshFor(p: SlabClass, ptr: Addr, len: nat) {
    forall i :: 0 <= i < |p.slabs| ==> Apart(p.slabs[i], SlabLen(p), ptr, len)
  }

  lemma AddOk(p: SlabClass, live: multiset<Addr>, ptr: Addr)
    requires ClassOk(p, live) && !Stocked(p)
    requires ptr > 0 && ptr % CHUNK_ALIGN_BYTES == 0 && FreshFor(p, ptr, SlabLen(p))
    ensures ClassOk(AddSlab(p, ptr), live) && Stocked(AddSlab(p, ptr))
  {
    var q := AddSlab(p, ptr);
    AddShared(p, live, ptr);
    hide Chunks, EndChunks, Shared;
    assert SlabLen(q) == SlabLen(p);
    hide SlabLen;
    forall i, j | 0 <= i < j < |q.slabs| ensures Apart(q.slabs[i], SlabLen(q), q.slabs[j], SlabLen(q)) {
      if j < |p.slabs| {
        assert Apart(p.slabs[i], SlabLen(p), p.slabs[j], SlabLen(p));
      }
    }
  }

  lemma AddShared(p: SlabClass, live: multiset<Addr>, ptr: Addr)
    requires Shared(p, live) && p.slots == [] && p.endFree == 0
    ensures Shared(AddSlab(p, ptr), live)
  {
    ChunksAppend(p.slabs, ptr, p.size, p.perslab);
    assert EndChunks(p) == [];
    hide AllChunks;
  }

  /** The chunks of a class are apart, aligned, and slabs times perslab in number, wherever they are. */
  lemma ChunksAccounted(p: SlabClass, live: multiset<Addr>)
    requires ClassOk(p, live)
    ensures |live| + |p.slots| + p.endFree == |p.slabs| * p.perslab
    ensures forall x :: x in Chunks(p) ==>
              x > 0 && x % CHUNK_ALIGN_BYTES == 0 && live[x] + multiset(p.slots)[x] + multiset(EndChunks(p))[x] == 1
    ensures forall x :: x in live || x in p.slots || x in EndChunks(p) ==> x in Chunks(p)
  {
    ChunksNumber(p.slabs, p.size, p.perslab);
    ChunksNoDup(p.slabs, p.size, p.perslab);
    RowNoDup(p.endPtr, p.size, p.endFree);
    var all := multiset(Chunks(p));
    assert |all| == |live| + |p.slots| + p.endFree;
    hide NoDup, AllChunks, Row;
    forall x | x in Chunks(p)
      ensures x > 0 && x % CHUNK_ALIGN_BYTES == 0
      ensures live[x] + multiset(p.slots)[x] + multiset(EndChunks(p))[x] == 1
    {
      NoDupCount(Chunks(p), x);
      var i := ChunkSlab(p.slabs, p.size, p.perslab, x);
      RowAligned(p.slabs[i], p.size, p.perslab, x);
      RowBounds(p.slabs[i], p.size, p.perslab, x);
    }
    forall x | x in live || x in p.slots || x in EndChunks(p) ensures x in Chunks(p) {
      assert x in all;
    }
  }
}
