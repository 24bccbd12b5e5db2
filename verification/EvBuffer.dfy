/** buffer.c: a growing byte buffer whose contents begin at a sliding place. */
module EvBuffer {

  type byte = x: int | 0 <= x < 256

  // ---- capacities -------------------------------------------------------------------------------

  /** 256 times a power of two. */
  predicate Doubled(n: nat) {
    n == 256 || (n > 256 && n % 2 == 0 && Doubled(n / 2))
  }

  predicate IsCapacity(n: nat) {
    n == 0 || Doubled(n)
  }

  /** The doubling loop of evbuffer_expand. */
  function LengthFor(length: nat, need: nat): (n: nat)
    requires length >= 256
    ensures n >= need && n >= length
    decreases if length < need then need - length else 0
  {
    if length < need then LengthFor(length * 2, need) else length
  }

  /** The new capacity is of the same kind, and no larger than it has to be. */
  lemma {:induction false} LengthForLeast(length: nat, need: nat)
    requires Doubled(length)
    ensures var n := LengthFor(length, need);
            Doubled(n) && (n > length ==> n < 2 * need && n % 2 == 0)
    decreases if length < need then need - length else 0
  {
    DoubledAtLeast(length);
    if length < need {
      assert (length * 2) / 2 == length;
      LengthForLeast(length * 2, need);
    }
  }

  lemma DoubledAtLeast(n: nat)
    requires Doubled(n)
    ensures n >= 256
  {
  }

  function Min(a: nat, b: nat): nat {
    if a < b then a else b
  }

  /** The bytes after the first n. */
  function Dropped(s: seq<byte>, n: nat): seq<byte> {
    if n >= |s| then [] else s[n..]
  }

  class Evbuffer {
    var memory: array<byte>   // orig_buffer, of totallen bytes
    var misalign: nat         // buffer - orig_buffer
    var off: nat

    ghost predicate Valid()
      reads this
    {
      misalign + off <= memory.Length && IsCapacity(memory.Length)
    }

    ghost function Contents(): seq<byte>
      requires Valid()
      reads this, memory
    {
      memory[misalign..misalign + off]
    }

    /** evbuffer_new */
    constructor ()
      ensures Valid() && Contents() == [] && memory.Length == 0 && fresh(memory)
    {
      memory := new byte[0];
      misalign, off := 0, 0;
    }

    /** evbuffer_align: the memmove to the front. */
    method Align()
      requires Valid()
      modifies this`misalign, memory
      ensures Valid() && misalign == 0 && Contents() == old(Contents())
    {
      ghost var was, first := memory[..], misalign;
      var i := 0;
      while i < off
        invariant 0 <= i <= off && misalign == first && memory == old(memory)
        invariant forall k :: 0 <= k < i ==> memory[k] == was[first + k]
        invariant forall k :: i <= k < memory.Length ==> memory[k] == was[k]
      {
        assert memory[misalign + i] == was[first + i];
        memory[i] := memory[misalign + i];
        i := i + 1;
      }
      assert memory[..off] == was[first..first + off];
      misalign := 0;
    }

    /** realloc: the same bytes in a larger block. */
    method Enlarge(length: nat)
      requires Valid() && misalign == 0 && length >= memory.Length && IsCapacity(length)
      modifies this`memory
      ensures Valid() && fresh(memory) && memory.Length == length && Contents() == old(Contents())
    {
      var larger := new byte[length](_ => 0);
      forall i | 0 <= i < off {
        larger[i] := memory[i];
      }
      memory := larger;
    }

    /** evbuffer_expand; granted says whether realloc has memory.  On success there is room for datlen
        more bytes, after a realignment as after a doubling; nothing that was in the buffer is lost. */
    method Expand(datlen: nat, granted: bool) returns (ok: bool)
      requires Valid()
      modifies this`memory, this`misalign, memory
      ensures Valid() && Contents() == old(Contents()) && (memory == old(memory) || fresh(memory))
      ensures ok ==> memory.Length - misalign - off >= datlen
      ensures !ok <==> !granted && old(memory.Length) < old(misalign) + off + datlen && old(misalign) < datlen
      ensures off == old(off)
      ensures memory.Length >= old(memory.Length)
      ensures memory.Length > old(memory.Length) ==>
                memory.Length == 256 || memory.Length < 2 * (old(misalign) + off + datlen)
    {
      var need := misalign + off + datlen;
      if memory.Length >= need {
        return true;
      }
      if misalign >= datlen {
        Align();
      } else {
        var length := if memory.Length < 256 then 256 else memory.Length;
        ghost var first := length;
        LengthForLeast(first, need);
        while length < need
          invariant length >= 256 && LengthFor(length, need) == LengthFor(first, need)
          decreases need - length
        {
          length := length * 2;
        }
        if misalign != 0 {
          Align();
        }
        if !granted {
          return false;
        }
        Enlarge(length);
      }
      return true;
    }

    /** evbuffer_add */
    method Add(data: seq<byte>, granted: bool) returns (ok: bool)
      requires Valid()
      modifies this, memory
      ensures Valid() && (memory == old(memory) || fresh(memory))
      ensures Contents() == if ok then old(Contents()) + data else old(Contents())
      ensures !ok <==> !granted && old(memory.Length) < old(misalign) + old(off) + |data| && old(misalign) < |data|
    {
      if memory.Length < misalign + off + |data| {
        ok := Expand(|data|, granted);
        if !ok {
          return false;
        }
      }
      Append(data);
      return true;
    }

    /** The memcpy behind the contents. */
    method Append(data: seq<byte>)
      requires Valid() && misalign + off + |data| <= memory.Length
      modifies this`off, memory
      ensures Valid() && Contents() == old(Contents()) + data
    {
      ghost var was := Contents();
      forall i | 0 <= i < |data| {
        memory[misalign + off + i] := data[i];
      }
      off := off + |data|;
      assert memory[misalign..misalign + |was|] == was;
    }

    /** evbuffer_drain */
    method Drain(len: nat)
      requires Valid()
      modifies this`misalign, this`off
      ensures Valid() && Contents() == Dropped(old(Contents()), len)
    {
      if len >= off {
        off := 0;
        misalign := 0;
        return;
      }
      misalign := misalign + len;
      off := off - len;
    }

    /** evbuffer_remove */
    method Remove(datlen: nat) returns (data: seq<byte>)
      requires Valid()
      modifies this`misalign, this`off
      ensures Valid() && |data| == Min(datlen, |old(Contents())|) && data + Contents() == old(Contents())
    {
      var nread := datlen;
      if nread >= off {
        nread := off;
      }
      data := memory[misalign..misalign + nread];
      Drain(nread);
    }

    /** evbuffer_add_buffer, for another buffer: all its bytes move over, or none.  Each of the two blocks
        of memory afterwards is one of the two before, or new, and the buffers do not share one. */
    method AddBuffer(inbuf: Evbuffer, granted: bool) returns (ok: bool)
      requires Valid() && inbuf.Valid() && inbuf != this && inbuf.memory != memory
      modifies this, memory, inbuf
      ensures Valid() && inbuf.Valid() && inbuf.memory != memory
      ensures memory == old(memory) || memory == old(inbuf.memory) || fresh(memory)
      ensures inbuf.memory == old(memory) || inbuf.memory == old(inbuf.memory)
      ensures ok ==> Contents() == old(Contents()) + old(inbuf.Contents()) && inbuf.Contents() == []
      ensures !ok ==> Contents() == old(Contents()) && inbuf.Contents() == old(inbuf.Contents())
      ensures !ok <==> !granted && old(off) != 0 && old(misalign) < old(inbuf.off) &&
                       old(memory.Length) < old(misalign) + old(off) + old(inbuf.off)
    {
      if off == 0 {
        Swap(inbuf);
        return true;
      }
      ok := Add(inbuf.memory[inbuf.misalign..inbuf.misalign + inbuf.off], granted);
      if ok {
        inbuf.Drain(inbuf.off);
      }
    }

    /** The short cut: the two blocks change owners. */
    method Swap(inbuf: Evbuffer)
      requires Valid() && inbuf.Valid() && inbuf != this
      modifies this, inbuf
      ensures Valid() && inbuf.Valid() && memory == old(inbuf.memory) && inbuf.memory == old(memory)
      ensures Contents() == old(inbuf.Contents()) && inbuf.Contents() == old(Contents())
    {
      var m, a, o := memory, misalign, off;
      memory, misalign, off := inbuf.memory, inbuf.misalign, inbuf.off;
      inbuf.memory, inbuf.misalign, inbuf.off := m, a, o;
    }
  }

  // ---- any mix of operations on any number of buffers ------------------------------------------------

  /** An operation on buffer i; granted says whether realloc has memory should it be called. */
  datatype Op =
    | DoAdd(i: nat, data: seq<byte>, granted: bool)
    | DoDrain(i: nat, len: nat)
    | DoRemove(i: nat, datlen: nat)
    | DoExpand(i: nat, datlen: nat, granted: bool)
    | DoAddBuffer(i: nat, j: nat, granted: bool)

  /** Whether the call succeeded, and the bytes it gave back. */
  datatype Out = Out(ok: bool, data: seq<byte>)

  predicate OpOn(op: Op, n: nat) {
    op.i < n && (op.DoAddBuffer? ==> op.j < n && op.i != op.j)
  }

  /** The calls that cannot fail. */
  predicate Surely(op: Op) {
    op.DoDrain? || op.DoRemove? || op.granted
  }

  /** What an operation on one buffer does to its bytes. */
  function ApplyOne(s: seq<byte>, op: Op): seq<byte>
    requires !op.DoAddBuffer?
  {
    match op
    case DoAdd(_, data, _) => s + data
    case DoDrain(_, len) => Dropped(s, len)
    case DoRemove(_, datlen) => Dropped(s, datlen)
    case DoExpand(_, _, _) => s
  }

  /** What an operation does to all the byte sequences: nothing if it fails. */
  function Apply(s: seq<seq<byte>>, op: Op, ok: bool): (t: seq<seq<byte>>)
    requires OpOn(op, |s|)
    ensures |t| == |s|
  {
    if !ok then s
    else if op.DoAddBuffer? then s[op.i := s[op.i] + s[op.j]][op.j := []]
    else s[op.i := ApplyOne(s[op.i], op)]
  }

  /** The answer of an operation on byte sequences: only a request for memory can fail, and evbuffer_remove
      gives back the bytes it takes. */
  predicate Answers(s: seq<seq<byte>>, op: Op, out: Out)
    requires OpOn(op, |s|)
  {
    && (Surely(op) ==> out.ok)
    && (op.DoRemove? ==> out.data == s[op.i][..Min(op.datlen, |s[op.i]|)])
    && (!op.DoRemove? ==> out.data == [])
  }

  /** The byte sequences t after operations with these answers. */
  ghost predicate Runs(s: seq<seq<byte>>, ops: seq<Op>, outs: seq<Out>, t: seq<seq<byte>>)
    requires forall op :: op in ops ==> OpOn(op, |s|)
    decreases |ops|
  {
    if ops == [] then outs == [] && t == s
    else
      && outs != []
      && Answers(s, ops[0], outs[0])
      && Runs(Apply(s, ops[0], outs[0].ok), ops[1..], outs[1..], t)
  }

  lemma {:induction false} RunsStep(
      s: seq<seq<byte>>, ops: seq<Op>, outs: seq<Out>, t: seq<seq<byte>>, op: Op, out: Out)
    requires forall o :: o in ops + [op] ==> OpOn(o, |s|)
    requires forall o :: o in ops ==> OpOn(o, |s|)
    requires Runs(s, ops, outs, t) && |t| == |s| && Answers(t, op, out)
    ensures Runs(s, ops + [op], outs + [out], Apply(t, op, out.ok))
    decreases |ops|
  {
    hide Apply, Answers, OpOn;
    if ops == [] {
      assert ops + [op] == [op] && outs + [out] == [out];
    } else {
      RunsStep(Apply(s, ops[0], outs[0].ok), ops[1..], outs[1..], t, op, out);
      assert (ops + [op])[1..] == ops[1..] + [op] && (outs + [out])[1..] == outs[1..] + [out];
    }
  }

  /** Different buffers, no two of which share a block of memory. */
  ghost predicate Apart(bufs: seq<Evbuffer>)
    reads bufs
  {
    && (forall b :: b in bufs ==> b.Valid())
    && forall i, j :: 0 <= i < j < |bufs| ==> bufs[i] != bufs[j] && bufs[i].memory != bufs[j].memory
  }

  ghost function Memories(bufs: seq<Evbuffer>): set<array<byte>>
    reads bufs
  {
    set b | b in bufs :: b.memory
  }

  /** Buffer i holds s[i]. */
  ghost predicate Hold(bufs: seq<Evbuffer>, s: seq<seq<byte>>)
    requires Apart(bufs)
    reads bufs, Memories(bufs)
  {
    |s| == |bufs| && forall i :: 0 <= i < |bufs| ==> bufs[i].Contents() == s[i]
  }

  /** Buffers do to their contents, in any mix of operations, what the operations do to byte sequences:
      whichever blocks of memory change owners, and whichever requests for memory are refused. */
  method RunOps(bufs: seq<Evbuffer>, ops: seq<Op>, ghost s: seq<seq<byte>>)
    returns (outs: seq<Out>, ghost t: seq<seq<byte>>)
    requires Apart(bufs) && Hold(bufs, s) && forall op :: op in ops ==> OpOn(op, |bufs|)
    modifies bufs, Memories(bufs)
    ensures Apart(bufs) && Hold(bufs, t) && Runs(s, ops, outs, t)
  {
    hide Apply, Answers, OpOn, Apart, Memories;
    outs, t := [], s;
    var k := 0;
    while k < |ops|
      invariant 0 <= k <= |ops| && |s| == |bufs| && Apart(bufs) && Hold(bufs, t)
      invariant forall m :: m in Memories(bufs) ==> m in old(Memories(bufs)) || fresh(m)
      invariant Runs(s, ops[..k], outs, t)
    {
      hide Runs, Hold;
      assert ops[..k + 1] == ops[..k] + [ops[k]];
      var out := RunOp(bufs, ops[k], t);
      RunsStep(s, ops[..k], outs, t, ops[k], out);
      outs, t := outs + [out], Apply(t, ops[k], out.ok);
      k := k + 1;
    }
    assert ops[..k] == ops;
  }

  /** An operation that touches only buffers i and j and their blocks, and takes no block of another,
      leaves all buffers apart and the others as they were. */
  twostate lemma OthersStay(
      bufs: seq<Evbuffer>, new i: nat, new j: nat, new s: seq<seq<byte>>, new t: seq<seq<byte>>)
    requires old(Apart(bufs))
    requires old(Hold(bufs, s))
    requires i < |bufs| && j < |bufs| && |t| == |s|
    requires forall k :: 0 <= k < |bufs| && k != i && k != j ==>
               unchanged(bufs[k]) && unchanged(old(bufs[k].memory)) && t[k] == s[k]
    requires forall b :: b in {bufs[i], bufs[j]} ==>
               b.Valid() && (fresh(b.memory) || b.memory in {old(bufs[i].memory), old(bufs[j].memory)})
    requires i != j ==> bufs[i].memory != bufs[j].memory
    requires bufs[i].Contents() == t[i] && bufs[j].Contents() == t[j]
    ensures Apart(bufs) && Hold(bufs, t)
    ensures forall m :: m in Memories(bufs) ==> m in old(Memories(bufs)) || fresh(m)
  {
    forall k | 0 <= k < |bufs|
      ensures bufs[k].Valid() && bufs[k].Contents() == t[k]
      ensures bufs[k].memory in old(Memories(bufs)) || fresh(bufs[k].memory)
    {
      assert old(bufs[k].Valid()) && old(bufs[k].Contents()) == s[k];
    }
    forall k, l | 0 <= k < l < |bufs|
      ensures bufs[k] != bufs[l] && bufs[k].memory != bufs[l].memory
    {
      assert old(bufs[k].memory) != old(bufs[l].memory);
    }
  }

  method RunOp(bufs: seq<Evbuffer>, op: Op, ghost s: seq<seq<byte>>) returns (out: Out)
    requires Apart(bufs) && Hold(bufs, s) && OpOn(op, |bufs|)
    modifies bufs, Memories(bufs)
    ensures Apart(bufs) && Answers(s, op, out) && Hold(bufs, Apply(s, op, out.ok))
    ensures forall m :: m in Memories(bufs) ==> m in old(Memories(bufs)) || fresh(m)
  {
    if op.DoAddBuffer? {
      var ok := bufs[op.i].AddBuffer(bufs[op.j], op.granted);
      out := Out(ok, []);
    } else {
      out := RunOne(bufs[op.i], op, s[op.i]);
    }
    OthersStay(bufs, op.i, if op.DoAddBuffer? then op.j else op.i, s, Apply(s, op, out.ok));
  }

  /** The operations on one buffer. */
  method RunOne(buf: Evbuffer, op: Op, ghost s: seq<byte>) returns (out: Out)
    requires buf.Valid() && buf.Contents() == s && !op.DoAddBuffer?
    modifies buf, buf.memory
    ensures buf.Valid() && (fresh(buf.memory) || buf.memory == old(buf.memory))
    ensures Surely(op) ==> out.ok
    ensures op.DoRemove? ==> out.data == s[..Min(op.datlen, |s|)]
    ensures !op.DoRemove? ==> out.data == []
    ensures buf.Contents() == if out.ok then ApplyOne(s, op) else s
  {
    if op.DoAdd? {
      var ok := buf.Add(op.data, op.granted);
      out := Out(ok, []);
    } else if op.DoDrain? {
      buf.Drain(op.len);
      out := Out(true, []);
    } else if op.DoRemove? {
      var data := buf.Remove(op.datlen);
      out := Out(true, data);
    } else {
      var ok := buf.Expand(op.datlen, op.granted);
      out := Out(ok, []);
    }
  }
}
