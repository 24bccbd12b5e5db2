/** slabs.c on its own variables: the slabclass array, mem_malloced, mem_current and mem_avail are
    changed in place. */
module SlabAllocator {
  import opened Seqs
  import opened Slabs
  import opened SlabPool
  import opened SlabRun

  class Allocator {
    const memLimit: nat
    var memMalloced: nat
    var slabclass: array<SlabClass>
    var preallocated: bool
    var memCurrent: Addr
    var memAvail: nat

    ghost function Value(): Pool
      reads this, slabclass
    {
      Pool(memLimit, memMalloced, slabclass[..], if preallocated then Some(Region(memCurrent, memAvail)) else None)
    }

    /** slabs_init; memBase is the memory allocated in advance, if it is asked for and there is any. */
    constructor (initial: nat, factor: real, limit: nat, memBase: Option<Addr>)
      requires factor >= 1.0 && initial > 0
      requires memBase.Some? ==> memBase.value > 0 && memBase.value % CHUNK_ALIGN_BYTES == 0
      ensures Value() == Started(ClassSizes(initial, factor), limit,
                                 if memBase.Some? then Some(Region(memBase.value, limit)) else None)
      ensures Valid(Value(), seq(slabclass.Length, _ => multiset{})) && fresh(slabclass)
    {
      hide Valid, ClassSizes, NewClass;
      var sizes := LayOut(initial, factor);
      memLimit := limit;
      memMalloced := 0;
      slabclass := new SlabClass[|sizes|](c requires 0 <= c < |sizes| => NewClass(sizes[c]));
      preallocated := memBase.Some?;
      memCurrent := if memBase.Some? then memBase.value else NULL;
      memAvail := limit;
      new;
      assert slabclass[..] == seq(|sizes|, c requires 0 <= c < |sizes| => NewClass(sizes[c]));
      StartedValid(initial, factor, limit, if memBase.Some? then Some(Region(memBase.value, limit)) else None);
    }

    /** memory_allocate */
    method AllocateMemory(size: nat, given: Option<Addr>) returns (ret: Option<Addr>)
      modifies this`memCurrent, this`memAvail
      ensures (ret, Value().region) == MemoryAllocate(old(Value()).region, size, given)
    {
      if !preallocated {
        return given;
      }
      if size > memAvail {
        return None;
      }
      ret := Some(memCurrent);
      var s := size;
      if s % CHUNK_ALIGN_BYTES != 0 {
        s := s + (CHUNK_ALIGN_BYTES - s % CHUNK_ALIGN_BYTES);
      }
      memCurrent := memCurrent + s;
      memAvail := if s < memAvail then memAvail - s else 0;
    }

    /** do_slabs_newslab */
    method DoSlabsNewslab(id: nat, given: Option<Addr>) returns (ok: bool)
      requires id < slabclass.Length
      modifies this`memMalloced, this`memCurrent, this`memAvail, slabclass
      ensures ok <==> NewSlab(old(Value()), id, given).Some?
      ensures ok ==> Value() == NewSlab(old(Value()), id, given).value
      ensures !ok ==> Value() == old(Value())
    {
      var p := slabclass[id];
      var len := p.size * p.perslab;
      if memLimit != 0 && memMalloced + len > memLimit && |p.slabs| > 0 {
        return false;
      }
      hide Align;
      var ptr := AllocateMemory(len, given);
      if ptr.None? {
        return false;
      }
      slabclass[id] := p.(endPtr := ptr.value, endFree := p.perslab, slabs := p.slabs + [ptr.value]);
      memMalloced := memMalloced + len;
      return true;
    }

    /** do_slabs_alloc */
    method DoSlabsAlloc(id: int, given: Option<Addr>) returns (ret: Option<Addr>)
      modifies this`memMalloced, this`memCurrent, this`memAvail, slabclass
      ensures (Value(), ret) == Alloc(old(Value()), id, given)
    {
      hide NewSlab, TakeChunk, Stocked;
      if id < 1 || id >= slabclass.Length {
        return None;
      }
      var ok := Stock(id, given);
      if !ok {
        return None;
      }
      ret := PopChunk(id);
    }

    /** A new slab, unless the class has a chunk. */
    method Stock(id: nat, given: Option<Addr>) returns (ok: bool)
      requires id < slabclass.Length
      modifies this`memMalloced, this`memCurrent, this`memAvail, slabclass
      ensures Stocked(old(slabclass[id])) ==> ok && Value() == old(Value())
      ensures !Stocked(old(slabclass[id])) ==> (ok <==> NewSlab(old(Value()), id, given).Some?)
      ensures !Stocked(old(slabclass[id])) && ok ==> Value() == NewSlab(old(Value()), id, given).value
      ensures !ok ==> Value() == old(Value())
    {
      hide NewSlab;
      if slabclass[id].endPtr == NULL && |slabclass[id].slots| == 0 {
        ok := DoSlabsNewslab(id, given);
      } else {
        ok := true;
      }
    }

    /** The chunk off the free list, or off the end of the page. */
    method PopChunk(id: nat) returns (ret: Option<Addr>)
      requires id < slabclass.Length
      modifies slabclass
      ensures old(slabclass[id]).slots == [] && old(slabclass[id]).endFree == 0 ==>
                ret == None && Value() == old(Value())
      ensures old(slabclass[id]).slots != [] || old(slabclass[id]).endFree > 0 ==>
                ret == Some(TakeChunk(old(slabclass[id])).1) &&
                Value() == old(Value()).(classes := old(slabclass[..])[id := TakeChunk(old(slabclass[id])).0])
    {
      var p := slabclass[id];
      if |p.slots| != 0 {
        var n := |p.slots| - 1;
        slabclass[id] := p.(slots := p.slots[..n]);
        ret := Some(p.slots[n]);
      } else if p.endFree != 0 {
        ret := Some(p.endPtr);
        if p.endFree - 1 != 0 {
          slabclass[id] := p.(endFree := p.endFree - 1, endPtr := p.endPtr + p.size);
        } else {
          slabclass[id] := p.(endFree := p.endFree - 1, endPtr := NULL);
        }
      } else {
        ret := None;
      }
    }

    /** do_slabs_free */
    method DoSlabsFree(id: int, ptr: Addr)
      modifies slabclass
      ensures Value() == Free(old(Value()), id, ptr)
    {
      if id < 1 || id >= slabclass.Length {
        return;
      }
      slabclass[id] := slabclass[id].(slots := slabclass[id].slots + [ptr]);
    }
  }
}
