/** For which schemas X_complete and X_unmarshal can follow a NULL pointer. */
module RpcCrash {
  import opened Seqs
  import opened EvTag
  import opened Rpc
  import opened RpcGaps
  import opened RpcRound
  import opened RpcAccept

  /** A required struct entry whose NULL pointer X_complete follows when it is not set. */
  predicate Followed(defs: Schema, e: Entry) {
    e.kind.KStruct? && !e.optional && e.kind.ref < |defs| && !Hollow(defs[e.kind.ref])
  }

  /** The entry can be set by bytes that are received: a payload has less than 65536 bytes. */
  predicate Receivable(e: Entry) {
    e.kind.KBytes? && !e.optional ==> e.kind.length < WRAP16
  }

  /** Such an entry, with no required one before it that can never be received. */
  predicate Exposed(defs: Schema, r: nat, i: nat) {
    && r < |defs| && i < |defs[r]| && Followed(defs, defs[r][i])
    && forall k :: 0 <= k < i ==> Receivable(defs[r][k])
  }

  // ---- a message that breaks X_complete ---------------------------------------------------------------

  /** The least value of an entry. */
  function Least(e: Entry): Field {
    if e.kind.KArray? then FArray([])
    else if e.optional || e.kind.KStruct? then Unset
    else
      match e.kind
      case KInt => FInt(0)
      case KBytes(n) => FBytes(seq(n, _ => 0))
      case _ => FBytes([])
  }

  /** Entries before place n with their least values, and the others not set. */
  function LeastMsg(es: seq<Entry>, n: nat): (m: Msg)
    ensures |m.fields| == |es|
    ensures forall i :: 0 <= i < |es| ==> m.fields[i] == if i < n then Least(es[i]) else BlankField(es[i])
  {
    Msg(seq(|es|, i requires 0 <= i < |es| => if i < n then Least(es[i]) else BlankField(es[i])))
  }

  lemma LeastTyped(defs: Schema, r: nat, n: nat)
    requires WellFormed(defs) && r < |defs|
    ensures Typed(defs, r, LeastMsg(defs[r], n))
  {
    hide LeastMsg, WellFormed;
    var m := LeastMsg(defs[r], n);
    forall i | 0 <= i < |m.fields| ensures TypedField(defs, defs[r][i], m.fields[i]) {
      assert m.fields[i] in {Least(defs[r][i]), BlankField(defs[r][i])};
    }
  }

  /** It holds no nested messages. */
  lemma {:induction false} LeastFlat(defs: Schema, r: nat, n: nat, i: nat)
    requires r < |defs| && i <= |defs[r]| && Typed(defs, r, LeastMsg(defs[r], n))
    ensures ReadGapsFrom(defs, r, LeastMsg(defs[r], n), i) == []
    decreases |defs[r]| - i
  {
    hide LeastMsg;
    if i < |defs[r]| {
      LeastFlat(defs, r, n, i + 1);
      var f := LeastMsg(defs[r], n).fields[i];
      assert f in {Least(defs[r][i]), BlankField(defs[r][i])};
      assert ReadGapsField(defs, defs[r][i], f) == [];
    }
  }

  lemma LeastGap(defs: Schema, e: Entry)
    requires EntryOk(defs, e) && TypedField(defs, e, Least(e))
    ensures GapsField(defs, e, Least(e)) == if Followed(defs, e) then [Gap(e.tag, true)] else []
    ensures Followed(defs, e) ==> BlankField(e) == Least(e)
  {
    hide Hollow;
  }

  /** Its first gap is its first required struct that X_complete follows. */
  lemma {:induction false} LeastBreaks(defs: Schema, r: nat, i: nat, k: nat)
    requires WellFormed(defs) && r < |defs| && k <= i < |defs[r]| && Followed(defs, defs[r][i])
    requires Typed(defs, r, LeastMsg(defs[r], i))
    ensures First(GapsFrom(defs, r, LeastMsg(defs[r], i), k)) == Broken
    decreases i - k
  {
    hide GapsField, WellFormed, First, Followed, LeastMsg, Typed, Least, BlankField;
    var m, e := LeastMsg(defs[r], i), defs[r][k];
    TypedPart(defs, r, m, k);
    LeastKind(defs, e);
    LeastGap(defs, e);
    if k < i {
      LeastBreaks(defs, r, i, k + 1);
    }
    FirstOf(GapsField(defs, e, m.fields[k]), GapsFrom(defs, r, m, k + 1));
    NullBreaks(e.tag);
  }

  lemma LeastKind(defs: Schema, e: Entry)
    requires EntryOk(defs, e)
    ensures TypedField(defs, e, Least(e))
  {
  }

  lemma NullBreaks(tag: byte)
    ensures First([Gap(tag, true)]) == Broken
  {
  }

  lemma LeastFits(defs: Schema, r: nat, n: nat)
    requires r < |defs| && n <= |defs[r]| && Typed(defs, r, LeastMsg(defs[r], n))
    requires forall k :: 0 <= k < n ==> Receivable(defs[r][k])
    ensures Fits(defs, r, LeastMsg(defs[r], n))
  {
    hide LeastMsg;
    var m := LeastMsg(defs[r], n);
    forall i | 0 <= i < |m.fields| ensures FitsField(defs, defs[r][i], m.fields[i]) {
      if i < n {
        assert Receivable(defs[r][i]);
      }
    }
  }

  /** With such an entry there is a message on which X_complete breaks, and bytes on which X_unmarshal does
      if nothing before the entry is too long to be received. */
  lemma ExposedCrashes(defs: Schema, r: nat, i: nat) returns (m: Msg)
    requires WellFormed(defs) && r < |defs| && i < |defs[r]| && Followed(defs, defs[r][i])
    ensures Typed(defs, r, m) && Complete(defs, r, m) == Broken
    ensures Exposed(defs, r, i) ==> UnmarshalMsg(defs, r, MarshalMsg(defs, r, m)) == Crash
  {
    m := LeastMsg(defs[r], i);
    LeastTyped(defs, r, i);
    LeastBreaks(defs, r, i, 0);
    CompleteGaps(defs, r, m);
    if Exposed(defs, r, i) {
      LeastFits(defs, r, i);
      LeastFlat(defs, r, i, 0);
      hide WellFormed, Typed, LeastMsg, GapsFrom, ReadGapsFrom, OwnGaps;
      Trip(defs, r, m);
      NestedMet(defs, r, m);
      assert [] + OwnGaps(defs, r, m, 0) == OwnGaps(defs, r, m, 0);
    }
  }

  // ---- and no other schema has one ---------------------------------------------------------------------

  lemma {:induction false} BrokenFollowed(defs: Schema, r: nat, m: Msg, i: nat) returns (r': nat, i': nat)
    requires WellFormed(defs) && Typed(defs, r, m) && i <= |m.fields|
    requires First(GapsFrom(defs, r, m, i)) == Broken
    ensures r' < |defs| && i' < |defs[r']| && Followed(defs, defs[r'][i'])
    decreases m, |m.fields| - i
  {
    hide WellFormed, Typed, TypedField, GapsField, Followed, First;
    FirstOf([], []);
    TypedPart(defs, r, m, i);
    var e, f := defs[r][i], m.fields[i];
    FirstOf(GapsField(defs, e, f), GapsFrom(defs, r, m, i + 1));
    if First(GapsField(defs, e, f)) == Done {
      r', i' := BrokenFollowed(defs, r, m, i + 1);
    } else if f.Unset? {
      NullFollowed(defs, e);
      r', i' := r, i;
    } else {
      r', i' := BrokenField(defs, e, f);
    }
  }

  lemma NullFollowed(defs: Schema, e: Entry)
    requires EntryOk(defs, e) && TypedField(defs, e, Unset) && First(GapsField(defs, e, Unset)) == Broken
    ensures Followed(defs, e)
  {
    hide Hollow;
  }

  lemma {:induction false} BrokenField(defs: Schema, e: Entry, f: Field) returns (r: nat, i: nat)
    requires WellFormed(defs) && TypedField(defs, e, f) && !f.Unset? && First(GapsField(defs, e, f)) == Broken
    ensures r < |defs| && i < |defs[r]| && Followed(defs, defs[r][i])
    decreases f, if f.FArray? then |f.elements| + 1 else 0
  {
    hide WellFormed, Typed, GapsFrom, GapsElements, Followed, First;
    FirstOf([], []);
    if f.FStruct? {
      r, i := BrokenFollowed(defs, e.kind.ref, f.msg, 0);
    } else {
      r, i := BrokenElements(defs, e, f, 0);
    }
  }

  lemma {:induction false} BrokenElements(defs: Schema, e: Entry, f: Field, j: nat) returns (r: nat, i: nat)
    requires WellFormed(defs) && TypedField(defs, e, f) && e.kind.KArray? && j <= |f.elements|
    requires First(GapsElements(defs, e, f, j)) == Broken
    ensures r < |defs| && i < |defs[r]| && Followed(defs, defs[r][i])
    decreases f, |f.elements| - j
  {
    hide WellFormed, Typed, GapsFrom, Followed, First;
    FirstOf([], []);
    FirstOf(Gaps(defs, e.kind.ref, f.elements[j]), GapsElements(defs, e, f, j + 1));
    if First(Gaps(defs, e.kind.ref, f.elements[j])) == Done {
      r, i := BrokenElements(defs, e, f, j + 1);
    } else {
      r, i := BrokenFollowed(defs, e.kind.ref, f.elements[j], 0);
    }
  }

  ghost predicate SomeFollowed(defs: Schema) {
    exists r: nat, i: nat :: r < |defs| && i < |defs[r]| && Followed(defs, defs[r][i])
  }

  ghost predicate SomeExposed(defs: Schema) {
    exists r: nat, i: nat :: Exposed(defs, r, i)
  }

  ghost predicate CompleteBreaks(defs: Schema)
    requires WellFormed(defs)
  {
    exists r: nat, m :: r < |defs| && Typed(defs, r, m) && Complete(defs, r, m) == Broken
  }

  ghost predicate UnmarshalCrashes(defs: Schema)
    requires WellFormed(defs)
  {
    exists r: nat, buf :: r < |defs| && UnmarshalMsg(defs, r, buf) == Crash
  }

  /** Some message makes an X_complete follow a NULL pointer if and only if the schema has a required entry
      of a struct that is not of optional plain entries only. */
  lemma BreaksExactly(defs: Schema)
    requires WellFormed(defs)
    ensures CompleteBreaks(defs) <==> SomeFollowed(defs)
  {
    hide WellFormed, Typed, Complete, Followed, First;
    if CompleteBreaks(defs) {
      var r: nat, m :| r < |defs| && Typed(defs, r, m) && Complete(defs, r, m) == Broken;
      CompleteGaps(defs, r, m);
      var r', i' := BrokenFollowed(defs, r, m, 0);
    }
    if SomeFollowed(defs) {
      var r: nat, i: nat :| r < |defs| && i < |defs[r]| && Followed(defs, defs[r][i]);
      var m := ExposedCrashes(defs, r, i);
    }
  }

  // ---- what is read before a crash ----------------------------------------------------------------------

  /** Every nested message read so far has been found complete. */
  predicate NestedDone(defs: Schema, r: nat, fs: seq<Field>)
    requires Typed(defs, r, Msg(fs))
  {
    forall i :: 0 <= i < |fs| ==> ReadGapsField(defs, defs[r][i], fs[i]) == []
  }

  lemma {:induction false} NestedNone(defs: Schema, r: nat, fs: seq<Field>, i: nat)
    requires Typed(defs, r, Msg(fs)) && NestedDone(defs, r, fs) && i <= |fs|
    ensures ReadGapsFrom(defs, r, Msg(fs), i) == []
    decreases |fs| - i
  {
    hide ReadGapsField, TypedField;
    if i < |fs| {
      NestedNone(defs, r, fs, i + 1);
    }
  }

  /** The first of a message's own gaps, when it is a NULL pointer. */
  lemma {:induction false} OwnExposed(defs: Schema, r: nat, m: Msg, i: nat) returns (i': nat)
    requires WellFormed(defs) && Typed(defs, r, m) && Fits(defs, r, m) && i <= |m.fields|
    requires First(OwnGaps(defs, r, m, i)) == Broken
    requires r < |defs| && |defs[r]| == |m.fields| && forall k :: 0 <= k < i ==> Receivable(defs[r][k])
    ensures Exposed(defs, r, i')
    decreases |m.fields| - i
  {
    hide WellFormed, Typed, Fits, TypedField, FitsField, Followed, OwnGap, First, Receivable;
    FirstOf([], []);
    TypedPart(defs, r, m, i);
    FitsAt(defs, r, m, i);
    var e, f := defs[r][i], m.fields[i];
    var own := if f.Unset? then OwnGap(defs, e) else [];
    FirstOf(own, OwnGaps(defs, r, m, i + 1));
    if First(own) == Done {
      SetReceivable(defs, e, f);
      i' := OwnExposed(defs, r, m, i + 1);
    } else {
      OwnFollowed(defs, e);
      i' := i;
    }
  }

  lemma SetReceivable(defs: Schema, e: Entry, f: Field)
    requires TypedField(defs, e, f) && FitsField(defs, e, f) && (f.Unset? ==> OwnGap(defs, e) == [])
    ensures Receivable(e)
  {
  }

  lemma OwnFollowed(defs: Schema, e: Entry)
    requires EntryOk(defs, e) && First(OwnGap(defs, e)) == Broken
    ensures Followed(defs, e)
  {
    hide Hollow;
  }

  /** Bytes on which X_unmarshal follows a NULL pointer are of a schema with an exposed entry. */
  lemma {:induction false} CrashExposed(defs: Schema, r: nat, buf: seq<byte>) returns (r': nat, i': nat)
    requires WellFormed(defs) && r < |defs| && UnmarshalMsg(defs, r, buf) == Crash
    ensures Exposed(defs, r', i')
    decreases |buf|, 2
  {
    hide Exposed, Loop, WellFormed, Within;
    BlankWithin(defs, r);
    BlankNested(defs, r);
    r', i' := LoopCrash(defs, r, buf, Blank(defs[r]), 0);
  }

  lemma BlankNested(defs: Schema, r: nat)
    requires r < |defs| && Within(defs, r, Msg(Blank(defs[r])), 0)
    ensures Typed(defs, r, Msg(Blank(defs[r]))) && NestedDone(defs, r, Blank(defs[r]))
  {
    forall i | 0 <= i < |defs[r]| ensures ReadGapsField(defs, defs[r][i], Blank(defs[r])[i]) == [] {
      assert Blank(defs[r])[i] == BlankField(defs[r][i]);
    }
  }

  lemma {:induction false} LoopCrash(defs: Schema, r: nat, buf: seq<byte>, fs: seq<Field>, size: nat)
    returns (r': nat, i': nat)
    requires WellFormed(defs) && r < |defs| && |fs| == |defs[r]| && Loop(defs, r, buf, fs) == Crash
    requires Within(defs, r, Msg(fs), size) && Typed(defs, r, Msg(fs)) && NestedDone(defs, r, fs)
    ensures Exposed(defs, r', i')
    decreases |buf|, 1
  {
    hide Within, FieldWithin, MarshalField, UnmarshalField, WellFormed, Complete, Typed, TypedField;
    hide Exposed, NestedDone;
    if buf == [] {
      r', i' := FinishCrash(defs, r, fs, size);
    } else {
      var i := FindTag(defs[r], Peek(buf).value);
      LoopEntry(defs, r, i);
      var e := defs[r][i];
      WithinAt(defs, r, fs, i, size);
      if UnmarshalField(defs, e, fs[i], buf).Ok? {
        var read := UnmarshalField(defs, e, fs[i], buf).value;
        ReadField(defs, e, fs[i], buf);
        WithinPut(defs, r, fs, i, read.field, size, |buf| - |read.rest|);
        WithinTyped(defs, r, Msg(fs[i := read.field]), size + |buf| - |read.rest|);
        NestedPut(defs, r, fs, i, read.field, buf);
        r', i' := LoopCrash(defs, r, read.rest, fs[i := read.field], size + |buf| - |read.rest|);
      } else {
        r', i' := FieldCrash(defs, e, fs[i], buf);
      }
    }
  }

  lemma WithinTyped(defs: Schema, r: nat, m: Msg, size: nat)
    requires Within(defs, r, m, size)
    ensures Typed(defs, r, m)
  {
  }

  lemma FinishCrash(defs: Schema, r: nat, fs: seq<Field>, size: nat) returns (r': nat, i': nat)
    requires WellFormed(defs) && r < |defs| && |fs| == |defs[r]| && Finish(defs, r, Msg(fs)) == Crash
    requires Within(defs, r, Msg(fs), size) && Typed(defs, r, Msg(fs)) && NestedDone(defs, r, fs)
    ensures Exposed(defs, r', i')
  {
    hide Exposed, NestedDone, Typed, Fits, WellFormed, Gaps, First, MarshalMsg, OwnGaps, ReadGapsFrom, Complete;
    var m := Msg(fs);
    CompleteGaps(defs, r, m);
    NestedNone(defs, r, fs, 0);
    NestedMet(defs, r, m);
    r' := r;
    i' := OwnExposed(defs, r, m, 0);
  }

  /** A nested message that has been read is complete. */
  lemma NestedPut(defs: Schema, r: nat, fs: seq<Field>, i: nat, g: Field, buf: seq<byte>)
    requires WellFormed(defs) && Typed(defs, r, Msg(fs)) && NestedDone(defs, r, fs) && i < |fs|
    requires r < |defs| && |fs| == |defs[r]| && EntryOk(defs, defs[r][i])
    requires UnmarshalField(defs, defs[r][i], fs[i], buf).Ok?
    requires UnmarshalField(defs, defs[r][i], fs[i], buf).value.field == g
    requires Typed(defs, r, Msg(fs[i := g]))
    ensures NestedDone(defs, r, fs[i := g])
  {
    hide UnmarshalField, WellFormed, TypedField, ReadGapsField;
    TypedPart(defs, r, Msg(fs), i);
    TypedPart(defs, r, Msg(fs[i := g]), i);
    NestedRead(defs, defs[r][i], fs[i], buf);
    forall k | 0 <= k < |fs| && k != i ensures ReadGapsField(defs, defs[r][k], fs[i := g][k]) == [] {
      TypedPart(defs, r, Msg(fs), k);
      assert fs[i := g][k] == fs[k];
    }
  }

  lemma NestedRead(defs: Schema, e: Entry, was: Field, buf: seq<byte>)
    requires WellFormed(defs) && EntryOk(defs, e) && UnmarshalField(defs, e, was, buf).Ok?
    requires TypedField(defs, e, was) && ReadGapsField(defs, e, was) == []
    requires TypedField(defs, e, UnmarshalField(defs, e, was, buf).value.field)
    ensures ReadGapsField(defs, e, UnmarshalField(defs, e, was, buf).value.field) == []
  {
    hide WellFormed, Unmarshal, UnmarshalMsg, Typed, ReadGaps, PayloadLength, UnmarshalInt, UnmarshalFixed;
    hide UnmarshalString, ReadGapsElements;
    if e.kind.KStruct? || e.kind.KArray? {
      var payload := Unmarshal(buf).value.payload;
      ReadDone(defs, e.kind.ref, payload);
      if e.kind.KArray? {
        ElementsDone(defs, e, was.elements, UnmarshalMsg(defs, e.kind.ref, payload).value, 0);
      }
    }
  }

  lemma ReadDone(defs: Schema, r: nat, buf: seq<byte>)
    requires WellFormed(defs) && r < |defs| && UnmarshalMsg(defs, r, buf).Ok?
    ensures var m := UnmarshalMsg(defs, r, buf).value; Typed(defs, r, m) && ReadGaps(defs, r, m) == []
  {
    hide WellFormed, UnmarshalMsg, Typed, Fits, MarshalMsg, Complete, Met, First, ReadGaps;
    var m := UnmarshalMsg(defs, r, buf).value;
    ReadMsg(defs, r, buf);
    CompleteGaps(defs, r, m);
    FirstOf(Gaps(defs, r, m), []);
    NoGaps(defs, r, m);
    MetReads(defs, r, m);
  }

  lemma {:induction false} ElementsDone(defs: Schema, e: Entry, ms: seq<Msg>, m: Msg, j: nat)
    requires e.kind.KArray? && TypedField(defs, e, FArray(ms)) && TypedField(defs, e, FArray(ms + [m])) && j <= |ms|
    requires Typed(defs, e.kind.ref, m) && ReadGaps(defs, e.kind.ref, m) == []
    requires ReadGapsElements(defs, e, FArray(ms), j) == []
    ensures ReadGapsElements(defs, e, FArray(ms + [m]), j) == []
    decreases |ms| - j
  {
    hide ReadGaps, Typed;
    if j < |ms| {
      assert (ms + [m])[j] == ms[j];
      ElementsDone(defs, e, ms, m, j + 1);
    } else {
      assert (ms + [m])[j] == m;
      assert ReadGapsElements(defs, e, FArray(ms + [m]), j + 1) == [];
    }
  }

  lemma {:induction false} FieldCrash(defs: Schema, e: Entry, was: Field, buf: seq<byte>) returns (r: nat, i: nat)
    requires WellFormed(defs) && EntryOk(defs, e) && UnmarshalField(defs, e, was, buf) == Crash
    ensures Exposed(defs, r, i)
    decreases |buf|, 0
  {
    hide WellFormed, Exposed, UnmarshalMsg, PayloadLength, UnmarshalInt, UnmarshalFixed, UnmarshalString;
    r, i := CrashExposed(defs, e.kind.ref, Unmarshal(buf).value.payload);
  }

  /** Some bytes make an X_unmarshal follow a NULL pointer if and only if the schema has such an entry with
      nothing required before it that is too long to be received. */
  lemma CrashesExactly(defs: Schema)
    requires WellFormed(defs)
    ensures UnmarshalCrashes(defs) <==> SomeExposed(defs)
  {
    hide WellFormed, Typed, UnmarshalMsg, Complete;
    if UnmarshalCrashes(defs) {
      var r: nat, buf :| r < |defs| && UnmarshalMsg(defs, r, buf) == Crash;
      var r', i' := CrashExposed(defs, r, buf);
    }
    if SomeExposed(defs) {
      var r: nat, i: nat :| Exposed(defs, r, i);
      var m := ExposedCrashes(defs, r, i);
    }
  }
}
