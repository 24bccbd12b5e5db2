/** The table of slab classes (slabs.c): how slabs_init lays it out and how slabs_clsid looks in it. */
module Slabs {
  const POWER_LARGEST: nat := 200
  const POWER_BLOCK: nat := 1048576
  const CHUNK_ALIGN_BYTES: nat := 8

  // ---- slabs_clsid ------------------------------------------------------------------------------

  /** slabs_clsid over the sizes of classes 1 and up; 0 means that no class is large enough. */
  function ClassId(sizes: seq<nat>, size: nat): (id: nat)
    ensures id == 0 || id < |sizes|
  {
    if size == 0 then 0 else ClassFrom(sizes, size, 1)
  }

  function ClassFrom(sizes: seq<nat>, size: nat, res: nat): (id: nat)
    ensures id == 0 || id < |sizes|
    decreases |sizes| - res
  {
    if res >= |sizes| then 0
    else if size <= sizes[res] then res
    else ClassFrom(sizes, size, res + 1)
  }

  /** The class found is the lowest that is large enough; none is found only if none is. */
  lemma {:induction false} ClassFromLeast(sizes: seq<nat>, size: nat, res: nat)
    requires res > 0
    ensures var id := ClassFrom(sizes, size, res);
            && (id != 0 ==> res <= id < |sizes| && size <= sizes[id] && forall j :: res <= j < id ==> sizes[j] < size)
            && (id == 0 <==> forall j :: res <= j < |sizes| ==> sizes[j] < size)
    decreases |sizes| - res
  {
    if res < |sizes| && sizes[res] < size {
      ClassFromLeast(sizes, size, res + 1);
    }
  }

  lemma ClassIdLeast(sizes: seq<nat>, size: nat)
    ensures var id := ClassId(sizes, size);
            && (id != 0 ==> 1 <= id < |sizes| && 0 < size <= sizes[id] && forall j :: 1 <= j < id ==> sizes[j] < size)
            && (id == 0 <==> size == 0 || forall j :: 1 <= j < |sizes| ==> sizes[j] < size)
  {
    ClassFromLeast(sizes, size, 1);
  }

  /** slabs_clsid */
  method SlabsClsid(sizes: seq<nat>, size: nat) returns (res: nat)
    requires |sizes| >= 2
    ensures res == ClassId(sizes, size)
  {
    if size == 0 {
      return 0;
    }
    res := 1;
    while size > sizes[res]
      invariant 1 <= res < |sizes| && ClassFrom(sizes, size, res) == ClassFrom(sizes, size, 1)
      decreases |sizes| - res
    {
      if res == |sizes| - 1 {
        return 0;
      }
      res := res + 1;
    }
  }

  // ---- slabs_init -------------------------------------------------------------------------------

  function Align(size: nat): (r: nat)
    ensures r >= size && r % CHUNK_ALIGN_BYTES == 0 && r < size + CHUNK_ALIGN_BYTES
  {
    if size % CHUNK_ALIGN_BYTES != 0 then size + (CHUNK_ALIGN_BYTES - size % CHUNK_ALIGN_BYTES) else size
  }

  /** size *= factor, cut to an integer. */
  function Grow(size: nat, factor: real): nat
    requires factor >= 1.0
  {
    GrowBound(size, factor);
    (size as real * factor).Floor
  }

  lemma GrowBound(size: nat, factor: real)
    requires factor >= 1.0
    ensures (size as real * factor).Floor >= size
  {
    assert size as real * factor >= size as real * 1.0;
  }

  /** The sizes that the loop of slabs_init gives to the classes from i on, and the last one after it. */
  function SizesFrom(i: nat, size: nat, factor: real): (r: seq<nat>)
    requires i <= POWER_LARGEST && factor >= 1.0
    decreases POWER_LARGEST - i
  {
    if i < POWER_LARGEST && size <= POWER_BLOCK / 2
    then [Align(size)] + SizesFrom(i + 1, Grow(Align(size), factor), factor)
    else [POWER_BLOCK]
  }

  /** The sizes of classes 0, which is not used, 1 and up. */
  function ClassSizes(initial: nat, factor: real): seq<nat>
    requires factor >= 1.0
  {
    [0] + SizesFrom(1, if factor == 2.0 && initial < 128 then 128 else initial, factor)
  }

  predicate SizesOk(sizes: seq<nat>, least: nat) {
    && sizes != [] && sizes[|sizes| - 1] == POWER_BLOCK
    && (forall j :: 0 <= j < |sizes| ==> least <= sizes[j] <= POWER_BLOCK && sizes[j] % CHUNK_ALIGN_BYTES == 0)
    && (forall j, k :: 0 <= j < k < |sizes| ==> sizes[j] <= sizes[k])
  }

  lemma {:induction false} SizesFromOk(i: nat, size: nat, factor: real)
    requires i <= POWER_LARGEST && factor >= 1.0
    ensures var r := SizesFrom(i, size, factor);
            SizesOk(r, if size <= POWER_BLOCK / 2 then size else 0) && |r| <= POWER_LARGEST + 1 - i
            && (size > POWER_BLOCK / 2 ==> r == [POWER_BLOCK])
    decreases POWER_LARGEST - i
  {
    hide SizesOk, Grow, Align;
    if i < POWER_LARGEST && size <= POWER_BLOCK / 2 {
      var a := Align(size);
      AlignHalf(size);
      GrownLeast(a, factor);
      SizesFromOk(i + 1, Grow(a, factor), factor);
      SizesCons(a, SizesFrom(i + 1, Grow(a, factor), factor), size, Grow(a, factor));
    } else {
      OneSlab(if size <= POWER_BLOCK / 2 then size else 0);
    }
  }

  lemma OneSlab(least: nat)
    requires least <= POWER_BLOCK
    ensures SizesOk([POWER_BLOCK], least)
  {
  }

  lemma GrownLeast(a: nat, factor: real)
    requires factor >= 1.0
    ensures Grow(a, factor) >= a
  {
    GrowBound(a, factor);
  }

  lemma AlignHalf(size: nat)
    requires size <= POWER_BLOCK / 2
    ensures Align(size) <= POWER_BLOCK / 2
  {
  }

  lemma SizesCons(a: nat, rest: seq<nat>, least: nat, grown: nat)
    requires SizesOk(rest, if grown <= POWER_BLOCK / 2 then grown else 0)
    requires grown > POWER_BLOCK / 2 ==> rest == [POWER_BLOCK]
    requires least <= a <= POWER_BLOCK && a <= grown && a % CHUNK_ALIGN_BYTES == 0
    ensures SizesOk([a] + rest, least)
  {
    var r := [a] + rest;
    assert forall j :: 0 < j < |r| ==> r[j] == rest[j - 1];
  }

  /** Whatever the first size and the growth factor, the classes are 8-byte aligned, in order and end
      with one whole slab, so that every size up to a slab's has a class, the one that wastes least. */
  lemma ClassTable(initial: nat, factor: real)
    requires factor >= 1.0
    ensures var sizes := ClassSizes(initial, factor);
            && 2 <= |sizes| <= POWER_LARGEST + 1 && sizes[|sizes| - 1] == POWER_BLOCK
            && (forall j :: 1 <= j < |sizes| ==> sizes[j] % CHUNK_ALIGN_BYTES == 0 && sizes[j] <= POWER_BLOCK)
            && (forall j, k :: 1 <= j < k < |sizes| ==> sizes[j] <= sizes[k])
            && (initial > 0 ==> forall j :: 1 <= j < |sizes| ==> sizes[j] > 0)
  {
    var first := if factor == 2.0 && initial < 128 then 128 else initial;
    SizesFromOk(1, first, factor);
    var rest := SizesFrom(1, first, factor);
    var sizes := ClassSizes(initial, factor);
    hide SizesFrom;
    assert sizes == [0] + rest;
    assert forall j :: 1 <= j < |sizes| ==> sizes[j] == rest[j - 1];
  }

  /** next is the product, cut to an integer and rounded up to a multiple of eight. */
  predicate Grown(size: nat, factor: real, next: nat) {
    next % 8 == 0 && size as real * factor - 1.0 < next as real < size as real * factor + 8.0
  }

  /** The product, cut to an integer, is more than half a slab. */
  predicate PastHalf(size: nat, factor: real) {
    size as real * factor >= 524289.0
  }

  lemma GrownIs(size: nat, factor: real)
    requires factor >= 1.0
    ensures Grown(size, factor, Align(Grow(size, factor)))
    ensures Grow(size, factor) > POWER_BLOCK / 2 <==> PastHalf(size, factor)
  {
  }

  lemma {:induction false} SizesFromGrow(i: nat, size: nat, factor: real)
    requires i <= POWER_LARGEST && factor >= 1.0
    ensures var r := SizesFrom(i, size, factor);
            && r != [] && (forall k :: 0 <= k < |r| - 1 ==> r[k] <= 524288)
            && (forall k :: 0 <= k < |r| - 2 ==> Grown(r[k], factor, r[k + 1]))
            && (if |r| == 1 then i == POWER_LARGEST || size > 524288
                else size <= r[0] < size + 8 && (i + |r| - 1 == POWER_LARGEST || PastHalf(r[|r| - 2], factor)))
    decreases POWER_LARGEST - i
  {
    hide Grow, Align, Grown, PastHalf;
    if i < POWER_LARGEST && size <= POWER_BLOCK / 2 {
      var a := Align(size);
      AlignHalf(size);
      GrownIs(a, factor);
      SizesFromGrow(i + 1, Grow(a, factor), factor);
      var rest := SizesFrom(i + 1, Grow(a, factor), factor);
      FirstAligned(i + 1, Grow(a, factor), factor);
      var r := [a] + rest;
      forall k | 0 <= k < |r| - 2 ensures Grown(r[k], factor, r[k + 1]) {
        if k > 0 {
          assert Grown(rest[k - 1], factor, rest[k]);
        }
      }
    }
  }

  lemma FirstAligned(i: nat, size: nat, factor: real)
    requires i <= POWER_LARGEST && factor >= 1.0
    ensures var r := SizesFrom(i, size, factor); |r| > 1 ==> r[0] == Align(size)
  {
  }

  /** Each class but the last is the first size rounded up to eight, or the one before times the factor, rounded
      likewise; they go on until the next would be more than half a slab, or there are two hundred. */
  lemma ClassesGrow(initial: nat, factor: real)
    requires factor >= 1.0
    ensures var sizes := ClassSizes(initial, factor);
            var first := if factor == 2.0 && initial < 128 then 128 else initial;
            && |sizes| >= 2
            && (forall j :: 1 <= j < |sizes| - 1 ==> sizes[j] <= 524288)
            && (|sizes| > 2 ==> first <= sizes[1] < first + 8)
            && (forall j :: 1 <= j < |sizes| - 2 ==> Grown(sizes[j], factor, sizes[j + 1]))
            && (|sizes| == 2 ==> first > 524288)
            && (2 < |sizes| < 201 ==> PastHalf(sizes[|sizes| - 2], factor))
  {
    var first := if factor == 2.0 && initial < 128 then 128 else initial;
    SizesFromGrow(1, first, factor);
    var rest := SizesFrom(1, first, factor);
    var sizes := ClassSizes(initial, factor);
    hide SizesFrom, Grown, PastHalf;
    assert sizes == [0] + rest;
    forall j | 1 <= j < |sizes| - 2 ensures Grown(sizes[j], factor, sizes[j + 1]) {
      assert Grown(rest[j - 1], factor, rest[j]);
    }
    if |sizes| > 2 {
      assert sizes[|sizes| - 2] == rest[|rest| - 2];
    }
  }

  predicate InOrder(sizes: seq<nat>) {
    && |sizes| >= 2 && sizes[|sizes| - 1] == POWER_BLOCK
    && forall j, k :: 1 <= j < k < |sizes| ==> sizes[j] <= sizes[k]
  }

  /** The object fits into class id, and into no class with smaller chunks. */
  predicate BestFit(sizes: seq<nat>, size: nat, id: nat) {
    && id < |sizes| && size <= sizes[id]
    && forall j :: 1 <= j < |sizes| && size <= sizes[j] ==> sizes[id] <= sizes[j]
  }

  lemma FitsInOrder(sizes: seq<nat>, size: nat)
    requires InOrder(sizes) && 0 < size
    ensures var id := ClassId(sizes, size);
            (id != 0 <==> size <= POWER_BLOCK) && (id != 0 ==> BestFit(sizes, size, id))
  {
    ClassIdLeast(sizes, size);
    hide ClassId;
  }

  /** slabs_clsid on that table never fails for an object of at most one slab, and what it gives is the
      smallest chunk that the object fits into. */
  lemma EveryObjectFits(initial: nat, factor: real, size: nat)
    requires factor >= 1.0 && 0 < size
    ensures var sizes := ClassSizes(initial, factor);
            var id := ClassId(sizes, size);
            (id != 0 <==> size <= POWER_BLOCK) && (id != 0 ==> BestFit(sizes, size, id))
  {
    ClassTable(initial, factor);
    hide ClassSizes, ClassId, BestFit;
    FitsInOrder(ClassSizes(initial, factor), size);
  }

  /** The loop of slabs_init. */
  method LayOut(initial: nat, factor: real) returns (sizes: seq<nat>)
    requires factor >= 1.0
    ensures sizes == ClassSizes(initial, factor)
  {
    var size: nat := initial;
    if factor == 2.0 && size < 128 {
      size := 128;
    }
    sizes := [0];
    var i := 1;
    while i < POWER_LARGEST && size <= POWER_BLOCK / 2
      invariant 1 <= i <= POWER_LARGEST && sizes + SizesFrom(i, size, factor) == ClassSizes(initial, factor)
      decreases POWER_LARGEST - i
    {
      hide Grow, Align;
      if size % CHUNK_ALIGN_BYTES != 0 {
        assert Align(size) == size + (CHUNK_ALIGN_BYTES - size % CHUNK_ALIGN_BYTES) by {
          AlignUp(size);
        }
        size := size + (CHUNK_ALIGN_BYTES - size % CHUNK_ALIGN_BYTES);
      } else {
        assert Align(size) == size by {
          AlignUp(size);
        }
      }
      assert sizes + ([size] + SizesFrom(i + 1, Grow(size, factor), factor)) ==
             sizes + [size] + SizesFrom(i + 1, Grow(size, factor), factor);
      sizes := sizes + [size];
      size := Grow(size, factor);
      i := i + 1;
    }
    sizes := sizes + [POWER_BLOCK];
  }

  lemma AlignUp(size: nat)
    ensures Align(size) ==
            if size % CHUNK_ALIGN_BYTES != 0 then size + (CHUNK_ALIGN_BYTES - size % CHUNK_ALIGN_BYTES) else size
  {
  }
}
