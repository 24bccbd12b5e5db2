/** The main results about generated marshalling code, and its two loops. */
module RpcTheorems {
  import opened Seqs
  import opened EvTag
  import opened Rpc
  import opened RpcGaps
  import opened RpcRound
  import opened RpcAccept

  /** Marshal then unmarshal gives a full message back exactly when no payload is cut. */
  lemma RoundTripExactly(defs: Schema, r: nat, m: Msg)
    requires WellFormed(defs) && Typed(defs, r, m) && Full(defs, r, m)
    ensures UnmarshalMsg(defs, r, MarshalMsg(defs, r, m)) == Ok(m) <==> Fits(defs, r, m)
  {
    FullMet(defs, r, m);
    TripExactly(defs, r, m);
  }

  /** Bytes that hold exactly the set entries of a message, any of which may be missing, are accepted as that
      message if and only if no payload is cut and no required entry is missed; if no payload is cut, the
      first one that is missed, nested messages first, decides between -1 and following a NULL pointer. */
  lemma TripExactly(defs: Schema, r: nat, m: Msg)
    requires WellFormed(defs) && Typed(defs, r, m)
    ensures var res := UnmarshalMsg(defs, r, MarshalMsg(defs, r, m));
            && (res == Ok(m) <==> Fits(defs, r, m) && Met(defs, r, m))
            && (Fits(defs, r, m) ==>
                  var gaps := ReadGaps(defs, r, m);
                  && (res == Fail <==> gaps != [] && !gaps[0].isNull)
                  && (res == Crash <==> gaps != [] && gaps[0].isNull))
  {
    hide WellFormed, Typed, Fits, Met, MarshalMsg, UnmarshalMsg, ReadGaps, Complete, Gaps;
    TypedSize(defs, r, m);
    MetReads(defs, r, m);
    if Fits(defs, r, m) {
      Trip(defs, r, m);
    }
    if UnmarshalMsg(defs, r, MarshalMsg(defs, r, m)) == Ok(m) {
      ReadMsg(defs, r, MarshalMsg(defs, r, m));
    }
  }

  /** A message of one string of bytes too long for 16 bits comes back cut, and no error is given. */
  lemma LongBytesCut(tag: byte, data: seq<byte>)
    requires |data| < WRAP32
    ensures var defs := [[Entry(tag, KVarBytes, false)]];
            var cut := data[..|data| % WRAP16];
            && WellFormed(defs) && Typed(defs, 0, Msg([FBytes(data)]))
            && UnmarshalMsg(defs, 0, MarshalMsg(defs, 0, Msg([FBytes(data)]))) == Ok(Msg([FBytes(cut)]))
  {
    var e := Entry(tag, KVarBytes, false);
    var defs := [[e]];
    var cut := data[..|data| % WRAP16];
    OneBytes(e, data);
    OneBytes(e, cut);
    MarshalCuts(tag, data);
    RoundTrip(defs, 0, Msg([FBytes(cut)]));
  }

  lemma OneBytes(e: Entry, data: seq<byte>)
    requires e.kind.KVarBytes? && |data| < WRAP32
    ensures var defs, m := [[e]], Msg([FBytes(data)]);
            && WellFormed(defs) && Typed(defs, 0, m) && Full(defs, 0, m)
            && MarshalMsg(defs, 0, m) == EvTag.Marshal(e.tag, data)
            && (|data| < WRAP16 ==> Fits(defs, 0, m))
  {
    var defs, m := [[e]], Msg([FBytes(data)]);
    assert StructOk(defs, defs[0]);
    assert TypedField(defs, defs[0][0], m.fields[0]);
    assert MarshalFrom(defs, 0, m, 1) == [];
    assert MarshalField(defs, e, m.fields[0]) + [] == EvTag.Marshal(e.tag, data);
  }

  // ---- complete messages ------------------------------------------------------------------------

  /** X_complete is done exactly if every required entry is set or of a struct with optional plain entries
      only; otherwise the first gap, in schema order and depth first, decides between reporting -1 and
      following a NULL pointer. */
  lemma CompleteExactly(defs: Schema, r: nat, m: Msg)
    requires WellFormed(defs) && Typed(defs, r, m)
    ensures Complete(defs, r, m) == Done <==> Met(defs, r, m)
    ensures Complete(defs, r, m) == Incomplete <==> Gaps(defs, r, m) != [] && !Gaps(defs, r, m)[0].isNull
    ensures Complete(defs, r, m) == Broken <==> Gaps(defs, r, m) != [] && Gaps(defs, r, m)[0].isNull
  {
    hide WellFormed, Typed, Met, Complete, Gaps;
    CompleteGaps(defs, r, m);
    NoGaps(defs, r, m);
  }

  // ---- accepted messages ------------------------------------------------------------------------

  /** Whatever bytes are accepted, the message they give misses no required entry and cuts no payload; if all
      of its required entries are set, it survives another trip and takes no more bytes. */
  lemma AcceptedAgain(defs: Schema, r: nat, buf: seq<byte>)
    requires WellFormed(defs) && r < |defs| && UnmarshalMsg(defs, r, buf).Ok?
    ensures var m := UnmarshalMsg(defs, r, buf).value;
            && Typed(defs, r, m) && Met(defs, r, m) && Fits(defs, r, m)
            && (Full(defs, r, m) ==>
                  && UnmarshalMsg(defs, r, MarshalMsg(defs, r, m)) == Ok(m)
                  && |MarshalMsg(defs, r, m)| <= |buf|)
            && (NoHollow(defs) ==> Full(defs, r, m))
  {
    hide WellFormed, Typed, Fits, Met, Full, MarshalMsg, UnmarshalMsg, Complete, NoHollow, Gaps;
    ReadMsg(defs, r, buf);
    var m := UnmarshalMsg(defs, r, buf).value;
    CompleteExactly(defs, r, m);
    RoundTrip(defs, r, m);
    if NoHollow(defs) {
      MetFull(defs, r, m);
    }
  }

  /** Where no required struct can be left out unnoticed, no gaps means that all is set. */
  lemma {:induction false} MetFull(defs: Schema, r: nat, m: Msg)
    requires WellFormed(defs) && NoHollow(defs) && Typed(defs, r, m) && Met(defs, r, m)
    ensures Full(defs, r, m)
    decreases m, 1
  {
    forall i | 0 <= i < |m.fields| ensures FullField(defs, defs[r][i], m.fields[i]) {
      TypedAt(defs, r, m, i);
      assert NotHollow(defs, defs[r][i]);
      assert MetField(defs, defs[r][i], m.fields[i]);
      MetFullField(defs, defs[r][i], m.fields[i]);
    }
  }

  lemma {:induction false} MetFullField(defs: Schema, e: Entry, f: Field)
    requires WellFormed(defs) && NoHollow(defs) && NotHollow(defs, e)
    requires TypedField(defs, e, f) && MetField(defs, e, f)
    ensures FullField(defs, e, f)
    decreases f, 0
  {
    hide WellFormed, NoHollow, Typed, Hollow;
    if f.FStruct? {
      MetFull(defs, e.kind.ref, f.msg);
    } else if f.FArray? {
      forall j | 0 <= j < |f.elements| ensures Full(defs, e.kind.ref, f.elements[j]) {
        MetFull(defs, e.kind.ref, f.elements[j]);
      }
    }
  }

  /** A required struct of optional plain entries may be left out: no bytes at all are accepted as a message
      that is not full. */
  lemma HollowAccepted(tag: byte, inner: byte)
    ensures var defs, m := [[Entry(tag, KStruct(1), false)], [Entry(inner, KInt, true)]], Msg([Unset]);
            && WellFormed(defs) && UnmarshalMsg(defs, 0, []) == Ok(m) && Typed(defs, 0, m) && !Full(defs, 0, m)
  {
    var defs, m := [[Entry(tag, KStruct(1), false)], [Entry(inner, KInt, true)]], Msg([Unset]);
    assert StructOk(defs, defs[0]) && StructOk(defs, defs[1]);
    assert Blank(defs[0]) == m.fields;
    assert MetField(defs, defs[0][0], m.fields[0]) && Met(defs, 0, m);
    assert !FullField(defs, defs[0][0], m.fields[0]);
    hide Complete, Full, Gaps;
    CompleteExactly(defs, 0, m);
    assert Loop(defs, 0, [], m.fields) == Ok(m);
  }

  /** A required struct that was never sent is followed as a NULL pointer, not reported as missing; with a
      required number before it that is missing too, -1 is reported. */
  lemma MissingStructBreaks(tag: byte, first: byte, inner: byte)
    requires first != tag
    ensures var e, outer := Entry(tag, KStruct(1), false), Entry(first, KInt, false);
            var defs, defs' := [[e, outer], [Entry(inner, KInt, false)]], [[outer, e], [Entry(inner, KInt, false)]];
            && WellFormed(defs) && UnmarshalMsg(defs, 0, []) == Crash
            && WellFormed(defs') && UnmarshalMsg(defs', 0, []) == Fail
  {
    var e, outer := Entry(tag, KStruct(1), false), Entry(first, KInt, false);
    NullFirst([[e, outer], [Entry(inner, KInt, false)]]);
    NullFirst([[outer, e], [Entry(inner, KInt, false)]]);
  }

  lemma NullFirst(defs: Schema)
    requires |defs| == 2 && |defs[0]| == 2 && |defs[1]| == 1 && defs[0][0].tag != defs[0][1].tag
    requires forall i :: 0 <= i < 2 ==> !defs[0][i].optional && (defs[0][i].kind.KInt? || defs[0][i].kind == KStruct(1))
    requires defs[1][0].kind == KInt && !defs[1][0].optional
    ensures WellFormed(defs)
    ensures UnmarshalMsg(defs, 0, []) == if defs[0][0].kind.KStruct? then Crash else Fail
  {
    assert StructOk(defs, defs[0]) && StructOk(defs, defs[1]);
    var m := Msg(Blank(defs[0]));
    assert m.fields == [Unset, Unset];
    assert Typed(defs, 0, m);
    assert !Hollow(defs[1]) by {
      assert !defs[1][0].optional;
    }
    assert GapsField(defs, defs[0][0], Unset) == [Gap(defs[0][0].tag, defs[0][0].kind.KStruct?)];
    assert GapsFrom(defs, 0, m, 0) == GapsField(defs, defs[0][0], Unset) + GapsFrom(defs, 0, m, 1);
    hide Complete, GapsFrom, Hollow;
    CompleteGaps(defs, 0, m);
    assert UnmarshalMsg(defs, 0, []) == Finish(defs, 0, m);
  }

  // ---- the generated loops ------------------------------------------------------------------------

  /** X_marshal: one statement an entry, with a loop for an array. */
  method MarshalInto(defs: Schema, r: nat, m: Msg) returns (evbuf: seq<byte>)
    requires Typed(defs, r, m)
    ensures evbuf == MarshalMsg(defs, r, m)
  {
    evbuf := [];
    var i := 0;
    while i < |m.fields|
      invariant i <= |m.fields| && evbuf + MarshalFrom(defs, r, m, i) == MarshalMsg(defs, r, m)
    {
      hide Typed, TypedField, MarshalField, MarshalFrom, MarshalMsg;
      TypedAt(defs, r, m, i);
      MarshalNext(defs, r, m, i);
      var more := MarshalEntry(defs, defs[r][i], m.fields[i]);
      Associates(evbuf, more, MarshalFrom(defs, r, m, i + 1));
      evbuf := evbuf + more;
      i := i + 1;
    }
    assert MarshalFrom(defs, r, m, i) == [];
  }

  lemma MarshalNext(defs: Schema, r: nat, m: Msg, i: nat)
    requires Typed(defs, r, m) && i < |m.fields| && r < |defs| && |m.fields| == |defs[r]|
    requires TypedField(defs, defs[r][i], m.fields[i])
    ensures MarshalFrom(defs, r, m, i) ==
            MarshalField(defs, defs[r][i], m.fields[i]) + MarshalFrom(defs, r, m, i + 1)
  {
    hide MarshalField, TypedField;
  }

  lemma Associates<T>(a: seq<T>, b: seq<T>, c: seq<T>)
    ensures a + (b + c) == (a + b) + c
  {
  }

  method MarshalEntry(defs: Schema, e: Entry, f: Field) returns (added: seq<byte>)
    requires TypedField(defs, e, f)
    ensures added == MarshalField(defs, e, f)
  {
    if f.FArray? {
      added := [];
      var i := 0;
      while i < |f.elements|
        invariant i <= |f.elements|
        invariant added + MarshalElements(defs, e, f, i) == MarshalElements(defs, e, f, 0)
      {
        hide Typed, MarshalMsg, EvTag.Marshal;
        var one := EvTag.Marshal(e.tag, MarshalMsg(defs, e.kind.ref, f.elements[i]));
        Associates(added, one, MarshalElements(defs, e, f, i + 1));
        added := added + one;
        i := i + 1;
      }
      assert MarshalElements(defs, e, f, i) == [];
    } else {
      added := MarshalField(defs, e, f);
    }
  }

  /** X_unmarshal: a switch on the tag, until the buffer is empty. */
  method UnmarshalFrom(defs: Schema, r: nat, evbuf: seq<byte>) returns (res: Result<Msg>)
    requires WellFormed(defs) && r < |defs|
    ensures res == UnmarshalMsg(defs, r, evbuf)
  {
    var buf := evbuf;
    var fields := Blank(defs[r]);
    while |buf| > 0
      invariant |fields| == |defs[r]| && Loop(defs, r, buf, fields) == UnmarshalMsg(defs, r, evbuf)
      decreases |buf|
    {
      hide WellFormed, UnmarshalMsg, Finish, UnmarshalField;
      var tag := Peek(buf);
      if tag.None? {
        return Fail;
      }
      var i := FindTag(defs[r], tag.value);
      if i == |defs[r]| || (!defs[r][i].kind.KArray? && fields[i] != Unset) {
        return Fail;
      }
      LoopEntry(defs, r, i);
      var got := UnmarshalField(defs, defs[r][i], fields[i], buf);
      if !got.Ok? {
        return if got.Fail? then Fail else Crash;
      }
      buf := got.value.rest;
      fields := fields[i := got.value.field];
    }
    res := Finish(defs, r, Msg(fields));
  }
}
