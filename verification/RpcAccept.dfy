/** What X_unmarshal accepts: a message of the right shape whose own marshalling is no longer. */
module RpcAccept {
  import opened Seqs
  import opened EvTag
  import opened Rpc
  import opened RpcRound

  /** A message as far as it has been read, whose marshalling takes at most so many bytes. */
  predicate Within(defs: Schema, r: nat, m: Msg, size: nat) {
    Typed(defs, r, m) && Fits(defs, r, m) && |MarshalMsg(defs, r, m)| <= size
  }

  predicate FieldWithin(defs: Schema, e: Entry, f: Field, size: nat) {
    TypedField(defs, e, f) && FitsField(defs, e, f) && |MarshalField(defs, e, f)| <= size
  }

  // ---- putting one field ------------------------------------------------------------------------

  lemma TypedPut(defs: Schema, r: nat, fs: seq<Field>, i: nat, g: Field)
    requires Typed(defs, r, Msg(fs)) && i < |fs| && TypedField(defs, defs[r][i], g)
    ensures Typed(defs, r, Msg(fs[i := g]))
  {
  }

  lemma FitsPut(defs: Schema, r: nat, fs: seq<Field>, i: nat, g: Field)
    requires Typed(defs, r, Msg(fs)) && i < |fs| && TypedField(defs, defs[r][i], g)
    requires Typed(defs, r, Msg(fs[i := g]))
    requires Fits(defs, r, Msg(fs)) && FitsField(defs, defs[r][i], g)
    ensures Fits(defs, r, Msg(fs[i := g]))
  {
    hide TypedField, FitsField;
  }

  lemma {:induction false} SizePut(defs: Schema, r: nat, fs: seq<Field>, i: nat, g: Field, k: nat)
    requires Typed(defs, r, Msg(fs)) && i < |fs| && TypedField(defs, defs[r][i], g)
    requires Typed(defs, r, Msg(fs[i := g])) && TypedField(defs, defs[r][i], fs[i]) && k <= |fs|
    ensures |MarshalFrom(defs, r, Msg(fs[i := g]), k)| == |MarshalFrom(defs, r, Msg(fs), k)| +
            if k <= i then |MarshalField(defs, defs[r][i], g)| - |MarshalField(defs, defs[r][i], fs[i])| else 0
    decreases |fs| - k
  {
    hide Typed, TypedField, MarshalField;
    if k < |fs| {
      SizePut(defs, r, fs, i, g, k + 1);
      TypedAt(defs, r, Msg(fs), k);
      TypedAt(defs, r, Msg(fs[i := g]), k);
    }
  }

  lemma TypedAt(defs: Schema, r: nat, m: Msg, k: nat)
    requires Typed(defs, r, m) && k < |m.fields|
    ensures r < |defs| && |m.fields| == |defs[r]| && TypedField(defs, defs[r][k], m.fields[k])
  {
  }

  lemma FitsAt(defs: Schema, r: nat, m: Msg, k: nat)
    requires Typed(defs, r, m) && Fits(defs, r, m) && k < |m.fields|
    requires r < |defs| && |m.fields| == |defs[r]| && TypedField(defs, defs[r][k], m.fields[k])
    ensures FitsField(defs, defs[r][k], m.fields[k])
  {
  }

  lemma WithinPut(defs: Schema, r: nat, fs: seq<Field>, i: nat, g: Field, size: nat, more: nat)
    requires Within(defs, r, Msg(fs), size) && i < |fs|
    requires r < |defs| && |fs| == |defs[r]| && TypedField(defs, defs[r][i], fs[i])
    requires FieldWithin(defs, defs[r][i], g, |MarshalField(defs, defs[r][i], fs[i])| + more)
    ensures Within(defs, r, Msg(fs[i := g]), size + more)
  {
    TypedPut(defs, r, fs, i, g);
    FitsPut(defs, r, fs, i, g);
    SizePut(defs, r, fs, i, g, 0);
    hide Typed, TypedField, Fits, FitsField, MarshalFrom, MarshalField;
  }

  // ---- arrays -------------------------------------------------------------------------------------

  lemma {:induction false} ElementsPut(defs: Schema, e: Entry, ms: seq<Msg>, m: Msg, j: nat)
    requires e.kind.KArray? && TypedField(defs, e, FArray(ms)) && Typed(defs, e.kind.ref, m)
    requires TypedField(defs, e, FArray(ms + [m])) && j <= |ms|
    ensures |MarshalElements(defs, e, FArray(ms + [m]), j)| ==
            |MarshalElements(defs, e, FArray(ms), j)| + |EvTag.Marshal(e.tag, MarshalMsg(defs, e.kind.ref, m))|
    decreases |ms| - j
  {
    hide MarshalMsg, EvTag.Marshal, Typed;
    if j < |ms| {
      ElementsPut(defs, e, ms, m, j + 1);
      assert (ms + [m])[j] == ms[j];
    } else {
      assert MarshalElements(defs, e, FArray(ms + [m]), j + 1) == [];
    }
  }

  lemma FieldWithinPut(defs: Schema, e: Entry, ms: seq<Msg>, m: Msg, more: nat)
    requires e.kind.KArray? && TypedField(defs, e, FArray(ms)) && FitsField(defs, e, FArray(ms))
    requires Typed(defs, e.kind.ref, m) && FitsPayload(defs, e.kind.ref, m)
    requires |EvTag.Marshal(e.tag, MarshalMsg(defs, e.kind.ref, m))| <= more
    ensures FieldWithin(defs, e, FArray(ms + [m]), |MarshalField(defs, e, FArray(ms))| + more)
  {
    hide FitsPayload, EvTag.Marshal, MarshalMsg, Typed;
    assert TypedField(defs, e, FArray(ms + [m]));
    ElementsPut(defs, e, ms, m, 0);
  }

  // ---- reading ----------------------------------------------------------------------------------------

  lemma BlankWithin(defs: Schema, r: nat)
    requires WellFormed(defs) && r < |defs|
    ensures Within(defs, r, Msg(Blank(defs[r])), 0)
  {
    BlankMarshal(defs, r, 0);
  }

  lemma {:induction false} BlankMarshal(defs: Schema, r: nat, k: nat)
    requires WellFormed(defs) && r < |defs| && k <= |defs[r]|
    ensures Typed(defs, r, Msg(Blank(defs[r]))) && MarshalFrom(defs, r, Msg(Blank(defs[r])), k) == []
    decreases |defs[r]| - k
  {
    var m := Msg(Blank(defs[r]));
    forall i | 0 <= i < |m.fields| ensures TypedField(defs, defs[r][i], m.fields[i]) {
      assert m.fields[i] == BlankField(defs[r][i]);
    }
    if k < |defs[r]| {
      BlankMarshal(defs, r, k + 1);
      assert m.fields[k] == BlankField(defs[r][k]);
    }
  }

  lemma MarshalLength(tag: byte, data: seq<byte>)
    requires |data| < WRAP16
    ensures |EvTag.Marshal(tag, data)| == 1 + |Encode(|data|)| + |data|
  {
    hide Encode;
  }

  /** An int takes no fewer bytes than evtag_marshal_int uses. */
  lemma ReadInt(defs: Schema, e: Entry, buf: seq<byte>)
    requires e.kind.KInt? && UnmarshalInt(buf, e.tag).Some?
    ensures var (n, rest) := UnmarshalInt(buf, e.tag).value;
            |rest| <= |buf| && FieldWithin(defs, e, FInt(n), |buf| - |rest|)
  {
    var t := Unmarshal(buf).value;
    EncodeShortest(t.payload);
    var n := Decode(t.payload).value.number;
    hide Decode, Encode, Unmarshal;
    UnmarshalSize(buf, |Encode(n)|);
  }

  lemma ReadBytes(defs: Schema, e: Entry, bs: seq<byte>, buf: seq<byte>)
    requires Unmarshal(buf).Some? && TypedField(defs, e, FBytes(bs)) && |bs| <= |Unmarshal(buf).value.payload|
    ensures |Unmarshal(buf).value.rest| <= |buf|
    ensures FieldWithin(defs, e, FBytes(bs), |buf| - |Unmarshal(buf).value.rest|)
  {
    hide Decode, Encode;
    UnmarshalSize(buf, |bs|);
    MarshalLength(e.tag, bs);
  }

  lemma ReadNested(defs: Schema, e: Entry, ref: nat, m: Msg, buf: seq<byte>)
    requires Unmarshal(buf).Some? && Within(defs, ref, m, |Unmarshal(buf).value.payload|)
    ensures |Unmarshal(buf).value.rest| <= |buf| && Typed(defs, ref, m) && FitsPayload(defs, ref, m)
    ensures |EvTag.Marshal(e.tag, MarshalMsg(defs, ref, m))| <= |buf| - |Unmarshal(buf).value.rest|
  {
    hide Decode, Encode, MarshalMsg, Fits, Typed;
    var size := |MarshalMsg(defs, ref, m)|;
    assert |Unmarshal(buf).value.payload| < WRAP16;
    UnmarshalSize(buf, size);
    MarshalLength(e.tag, MarshalMsg(defs, ref, m));
  }

  lemma ReadScalar(defs: Schema, e: Entry, was: Field, buf: seq<byte>)
    requires WellFormed(defs) && EntryOk(defs, e) && UnmarshalField(defs, e, was, buf).Ok?
    requires !e.kind.KStruct? && !e.kind.KArray?
    ensures var read := UnmarshalField(defs, e, was, buf).value;
            FieldWithin(defs, e, read.field, |buf| - |read.rest|)
  {
    hide WellFormed, FieldWithin, Decode;
    match e.kind
    case KInt => ReadInt(defs, e, buf);
    case KBytes(n) => ReadBytes(defs, e, UnmarshalFixed(buf, e.tag, n).value.0, buf);
    case KVarBytes =>
      var len := PayloadLength(buf).value;
      ReadBytes(defs, e, UnmarshalFixed(buf, e.tag, len).value.0, buf);
    case KString => ReadBytes(defs, e, UnmarshalString(buf, e.tag).value.0, buf);
  }

  lemma {:induction false} ReadField(defs: Schema, e: Entry, was: Field, buf: seq<byte>)
    requires WellFormed(defs) && EntryOk(defs, e) && UnmarshalField(defs, e, was, buf).Ok?
    requires TypedField(defs, e, was) && FitsField(defs, e, was)
    ensures var read := UnmarshalField(defs, e, was, buf).value;
            FieldWithin(defs, e, read.field, |MarshalField(defs, e, was)| + (|buf| - |read.rest|))
    decreases |buf|, 0
  {
    hide WellFormed, TypedField, FitsField, FieldWithin, MarshalField;
    if e.kind.KStruct? || e.kind.KArray? {
      NestedOk(defs, e, was, buf);
      var t := Unmarshal(buf).value;
      ReadMsg(defs, e.kind.ref, t.payload);
      var m := UnmarshalMsg(defs, e.kind.ref, t.payload).value;
      hide Unmarshal, UnmarshalMsg, UnmarshalField, Within, Complete;
      ReadNested(defs, e, e.kind.ref, m, buf);
      NestedWithin(defs, e, was, m, |buf| - |t.rest|);
    } else {
      ReadScalar(defs, e, was, buf);
      MoreWithin(defs, e, UnmarshalField(defs, e, was, buf).value.field,
                 |buf| - |UnmarshalField(defs, e, was, buf).value.rest|, |MarshalField(defs, e, was)|);
    }
  }

  lemma MoreWithin(defs: Schema, e: Entry, f: Field, size: nat, more: nat)
    requires FieldWithin(defs, e, f, size)
    ensures FieldWithin(defs, e, f, more + size)
  {
    hide TypedField, FitsField, MarshalField;
  }

  /** The value of a struct or array entry after one more message. */
  function NestedValue(e: Entry, was: Field, m: Msg): Field {
    if e.kind.KArray? then FArray((if was.FArray? then was.elements else []) + [m]) else FStruct(m)
  }

  lemma NestedOk(defs: Schema, e: Entry, was: Field, buf: seq<byte>)
    requires WellFormed(defs) && EntryOk(defs, e) && UnmarshalField(defs, e, was, buf).Ok?
    requires e.kind.KStruct? || e.kind.KArray?
    ensures Unmarshal(buf).Some? && |Unmarshal(buf).value.payload| < |buf|
    ensures var t := Unmarshal(buf).value;
            && UnmarshalMsg(defs, e.kind.ref, t.payload).Ok?
            && UnmarshalField(defs, e, was, buf).value ==
                 Read(NestedValue(e, was, UnmarshalMsg(defs, e.kind.ref, t.payload).value), t.rest)
  {
    hide WellFormed, UnmarshalMsg;
  }

  lemma NestedWithin(defs: Schema, e: Entry, was: Field, m: Msg, more: nat)
    requires EntryOk(defs, e) && TypedField(defs, e, was) && FitsField(defs, e, was)
    requires e.kind.KStruct? || e.kind.KArray?
    requires Typed(defs, e.kind.ref, m) && FitsPayload(defs, e.kind.ref, m)
    requires |EvTag.Marshal(e.tag, MarshalMsg(defs, e.kind.ref, m))| <= more
    ensures FieldWithin(defs, e, NestedValue(e, was, m), |MarshalField(defs, e, was)| + more)
  {
    hide FitsPayload, EvTag.Marshal, MarshalMsg, Typed, MarshalElements;
    if e.kind.KArray? {
      FieldWithinPut(defs, e, was.elements, m, more);
    }
  }

  /** Whatever X_unmarshal accepts marshals to no more bytes than it was read from. */
  lemma {:induction false} ReadMsg(defs: Schema, r: nat, buf: seq<byte>)
    requires WellFormed(defs) && r < |defs| && UnmarshalMsg(defs, r, buf).Ok?
    ensures var m := UnmarshalMsg(defs, r, buf).value;
            Within(defs, r, m, |buf|) && Complete(defs, r, m) == Done
    decreases |buf|, 2
  {
    BlankWithin(defs, r);
    ReadLoop(defs, r, buf, Blank(defs[r]), 0);
  }

  lemma {:induction false} ReadLoop(defs: Schema, r: nat, buf: seq<byte>, fs: seq<Field>, size: nat)
    requires WellFormed(defs) && r < |defs| && |fs| == |defs[r]| && Loop(defs, r, buf, fs).Ok?
    requires Within(defs, r, Msg(fs), size)
    ensures var m := Loop(defs, r, buf, fs).value;
            Within(defs, r, m, size + |buf|) && Complete(defs, r, m) == Done
    decreases |buf|, 1
  {
    hide Within, FieldWithin, MarshalField, UnmarshalField, WellFormed, Complete, Typed, TypedField;
    if buf != [] {
      var i := FindTag(defs[r], Peek(buf).value);
      LoopEntry(defs, r, i);
      var read := UnmarshalField(defs, defs[r][i], fs[i], buf).value;
      WithinAt(defs, r, fs, i, size);
      ReadField(defs, defs[r][i], fs[i], buf);
      WithinPut(defs, r, fs, i, read.field, size, |buf| - |read.rest|);
      ReadLoop(defs, r, read.rest, fs[i := read.field], size + |buf| - |read.rest|);
    }
  }

  lemma LoopEntry(defs: Schema, r: nat, i: nat)
    requires WellFormed(defs) && r < |defs| && i < |defs[r]|
    ensures EntryOk(defs, defs[r][i])
  {
    assert StructOk(defs, defs[r]);
  }

  lemma WithinAt(defs: Schema, r: nat, fs: seq<Field>, i: nat, size: nat)
    requires Within(defs, r, Msg(fs), size) && i < |fs|
    ensures r < |defs| && |fs| == |defs[r]|
    ensures TypedField(defs, defs[r][i], fs[i]) && FitsField(defs, defs[r][i], fs[i])
  {
    TypedAt(defs, r, Msg(fs), i);
    FitsAt(defs, r, Msg(fs), i);
  }
}
