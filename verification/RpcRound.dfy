/** Unmarshalling the bytes of a message's set entries, when every payload fits in 16 bits. */
module RpcRound {
  import opened Seqs
  import opened EvTag
  import opened Rpc
  import opened RpcGaps

  // ---- the result a check leads to -----------------------------------------------------------------

  function Answer<T>(c: Check, res: Result<T>): Result<T> {
    match c
    case Done => res
    case Incomplete => Fail
    case Broken => Crash
  }

  lemma AnswerOf<T>(a: seq<Gap>, b: seq<Gap>, res: Result<T>)
    ensures Answer(First(a + b), res) == Answer(First(a), Answer(First(b), res))
  {
    FirstOf(a, b);
  }

  // ---- unmarshal after marshal ----------------------------------------------------------------------

  /** The fields when those before place i have been read. */
  function ReadSoFar(es: seq<Entry>, m: Msg, i: nat): (fs: seq<Field>)
    requires |m.fields| == |es| && i <= |es|
    ensures |fs| == |es|
  {
    m.fields[..i] + Blank(es)[i..]
  }

  predicate Good(defs: Schema, r: nat, m: Msg) {
    WellFormed(defs) && Typed(defs, r, m) && Fits(defs, r, m)
  }

  predicate GoodField(defs: Schema, e: Entry, f: Field) {
    WellFormed(defs) && EntryOk(defs, e) && TypedField(defs, e, f) && FitsField(defs, e, f)
  }

  lemma GoodAt(defs: Schema, r: nat, m: Msg, i: nat)
    requires Good(defs, r, m) && i < |m.fields|
    ensures r < |defs| && |m.fields| == |defs[r]| && GoodField(defs, defs[r][i], m.fields[i])
    ensures EntryOk(defs, defs[r][i]) && TypedField(defs, defs[r][i], m.fields[i])
  {
    assert StructOk(defs, defs[r]);
  }

  lemma GoodParts(defs: Schema, r: nat, m: Msg)
    requires Good(defs, r, m)
    ensures WellFormed(defs) && Typed(defs, r, m) && r < |defs| && |m.fields| == |defs[r]|
  {
  }

  lemma TagFound(es: seq<Entry>, i: nat)
    requires DistinctTags(es) && i < |es|
    ensures FindTag(es, es[i].tag) == i
  {
  }

  /** Bytes that hold the set entries of a message are read to the first gap: the message comes back if
      there is none, and otherwise the gap is reported or its NULL pointer followed. */
  lemma {:induction false} Trip(defs: Schema, r: nat, m: Msg)
    requires Good(defs, r, m)
    ensures UnmarshalMsg(defs, r, MarshalMsg(defs, r, m)) == Answer(First(ReadGaps(defs, r, m)), Ok(m))
    decreases m, |m.fields| + 1
  {
    RoundFrom(defs, r, m, 0);
    BlankFirst(defs, r, m);
    var inner, own := ReadGapsFrom(defs, r, m, 0), OwnGaps(defs, r, m, 0);
    LoopEnds(defs, r, m);
    hide WellFormed, Typed, Fits, First, Answer, Loop, MarshalFrom, ReadGapsFrom, OwnGaps, Gaps, ReadSoFar;
    AnswerOf(inner, own, Ok(m));
    FirstOf(inner, []);
    if inner == [] {
      NestedMet(defs, r, m);
    } else {
      AnswerCut(First(inner), Answer(First(Gaps(defs, r, m)), Ok(m)), Answer(First(own), Ok(m)));
    }
  }

  lemma NestedMet(defs: Schema, r: nat, m: Msg)
    requires Typed(defs, r, m) && ReadGapsFrom(defs, r, m, 0) == []
    ensures Gaps(defs, r, m) == OwnGaps(defs, r, m, 0)
  {
    OnlyOwn(defs, r, m, 0);
  }

  lemma AnswerCut<T>(c: Check, res: Result<T>, res': Result<T>)
    requires c != Done
    ensures Answer(c, res) == Answer(c, res')
  {
  }

  lemma BlankFirst(defs: Schema, r: nat, m: Msg)
    requires WellFormed(defs) && Typed(defs, r, m)
    ensures ReadSoFar(defs[r], m, 0) == Blank(defs[r])
  {
    hide WellFormed, TypedField;
  }

  lemma LoopEnds(defs: Schema, r: nat, m: Msg)
    requires WellFormed(defs) && Typed(defs, r, m)
    ensures Loop(defs, r, [], m.fields) == Answer(First(Gaps(defs, r, m)), Ok(m))
  {
    hide WellFormed, TypedField, Gaps, First, Complete;
    CompleteGaps(defs, r, m);
    assert Msg(m.fields) == m;
  }

  lemma {:induction false} RoundFrom(defs: Schema, r: nat, m: Msg, i: nat)
    requires Good(defs, r, m) && i <= |m.fields|
    ensures Loop(defs, r, MarshalFrom(defs, r, m, i), ReadSoFar(defs[r], m, i)) ==
            Answer(First(ReadGapsFrom(defs, r, m, i)), Loop(defs, r, [], m.fields))
    decreases m, |m.fields| - i
  {
    if i == |m.fields| {
      RoundDone(defs, r, m);
    } else {
      hide *;
      GoodParts(defs, r, m);
      GoodAt(defs, r, m, i);
      RoundFrom(defs, r, m, i + 1);
      RoundAt(defs, r, m, i);
      var gaps := ReadGapsField(defs, defs[r][i], m.fields[i]);
      AnswerOf(gaps, ReadGapsFrom(defs, r, m, i + 1), Loop(defs, r, [], m.fields));
      GapsSplit(defs, r, m, i);
    }
  }

  lemma RoundDone(defs: Schema, r: nat, m: Msg)
    requires Good(defs, r, m)
    ensures Loop(defs, r, MarshalFrom(defs, r, m, |m.fields|), ReadSoFar(defs[r], m, |m.fields|)) ==
            Answer(First(ReadGapsFrom(defs, r, m, |m.fields|)), Loop(defs, r, [], m.fields))
  {
    hide Loop, WellFormed, TypedField, Fits;
    assert ReadSoFar(defs[r], m, |m.fields|) == m.fields;
  }

  lemma GapsSplit(defs: Schema, r: nat, m: Msg, i: nat)
    requires Typed(defs, r, m) && i < |m.fields| && TypedField(defs, defs[r][i], m.fields[i])
    ensures ReadGapsFrom(defs, r, m, i) ==
            ReadGapsField(defs, defs[r][i], m.fields[i]) + ReadGapsFrom(defs, r, m, i + 1)
  {
  }

  /** The turns of the loop that read one entry. */
  lemma {:induction false} RoundAt(defs: Schema, r: nat, m: Msg, i: nat)
    requires Good(defs, r, m) && WellFormed(defs) && Typed(defs, r, m)
    requires i < |m.fields| && r < |defs| && |m.fields| == |defs[r]|
    requires GoodField(defs, defs[r][i], m.fields[i])
    requires EntryOk(defs, defs[r][i]) && TypedField(defs, defs[r][i], m.fields[i])
    ensures Loop(defs, r, MarshalFrom(defs, r, m, i), ReadSoFar(defs[r], m, i)) ==
            Answer(First(ReadGapsField(defs, defs[r][i], m.fields[i])),
                   Loop(defs, r, MarshalFrom(defs, r, m, i + 1), ReadSoFar(defs[r], m, i + 1)))
    decreases m, |m.fields| - i, 0
  {
    hide Loop, Good, WellFormed, Typed, Fits, TypedField, FitsField, Answer, MarshalFrom, ReadSoFar;
    hide ReadGaps, ReadGapsElements, First;
    var e, f := defs[r][i], m.fields[i];
    if f.Unset? {
      RoundUnset(defs, r, m, i);
      NoAnswer(Loop(defs, r, MarshalFrom(defs, r, m, i + 1), ReadSoFar(defs[r], m, i + 1)));
    } else if f.FArray? {
      ArrayKind(defs, e, f);
      RoundElements(defs, r, m, i, 0);
      ReadNone(defs, r, m, i);
      ReadAll(defs, r, m, i);
      ArrayBytes(defs, r, m, i);
    } else {
      RoundField(defs, e, f, MarshalFrom(defs, r, m, i + 1));
      RoundScalar(defs, r, m, i, First(ReadGapsField(defs, e, f)));
    }
  }

  lemma ArrayKind(defs: Schema, e: Entry, f: Field)
    requires TypedField(defs, e, f) && f.FArray?
    ensures e.kind.KArray?
  {
  }

  lemma NoAnswer<T>(res: Result<T>)
    ensures Answer(First([]), res) == res
  {
  }

  lemma RoundUnset(defs: Schema, r: nat, m: Msg, i: nat)
    requires Typed(defs, r, m) && i < |m.fields| && m.fields[i].Unset?
    ensures MarshalFrom(defs, r, m, i) == MarshalFrom(defs, r, m, i + 1)
    ensures ReadSoFar(defs[r], m, i) == ReadSoFar(defs[r], m, i + 1)
  {
    var es := defs[r];
    assert TypedField(defs, es[i], m.fields[i]);
    assert Blank(es)[i] == m.fields[i];
    assert m.fields[..i + 1] == m.fields[..i] + [m.fields[i]];
    assert Blank(es)[i..] == [Blank(es)[i]] + Blank(es)[i + 1..];
    assert [] + MarshalFrom(defs, r, m, i + 1) == MarshalFrom(defs, r, m, i + 1);
  }

  /** One turn of the loop reads the field that comes next. */
  lemma RoundScalar(defs: Schema, r: nat, m: Msg, i: nat, c: Check)
    requires Good(defs, r, m) && i < |m.fields| && !m.fields[i].Unset? && !m.fields[i].FArray?
    requires TypedField(defs, defs[r][i], m.fields[i])
    requires var bs := MarshalField(defs, defs[r][i], m.fields[i]) + MarshalFrom(defs, r, m, i + 1);
             Peek(bs) == Some(defs[r][i].tag) &&
             EntryOk(defs, defs[r][i]) && UnmarshalField(defs, defs[r][i], Unset, bs) ==
               Answer(c, Ok(Read(m.fields[i], MarshalFrom(defs, r, m, i + 1))))
    ensures Loop(defs, r, MarshalFrom(defs, r, m, i), ReadSoFar(defs[r], m, i)) ==
            Answer(c, Loop(defs, r, MarshalFrom(defs, r, m, i + 1), ReadSoFar(defs[r], m, i + 1)))
  {
    hide MarshalField, UnmarshalField, Good, WellFormed, Typed, TypedField, ReadSoFar, Finish, FindTag, Blank;
    GoodParts(defs, r, m);
    WellFormedAt(defs, r);
    TagFound(defs[r], i);
    ScalarKind(defs, defs[r][i], m.fields[i]);
    ReadSlot(defs[r], m, i);
    var bs := MarshalField(defs, defs[r][i], m.fields[i]) + MarshalFrom(defs, r, m, i + 1);
    assert bs != [];
    assert MarshalFrom(defs, r, m, i) == bs;
  }

  lemma ScalarKind(defs: Schema, e: Entry, f: Field)
    requires TypedField(defs, e, f) && !f.Unset? && !f.FArray?
    ensures !e.kind.KArray?
  {
  }

  lemma ReadSlot(es: seq<Entry>, m: Msg, i: nat)
    requires |m.fields| == |es| && i < |es| && !es[i].kind.KArray?
    ensures ReadSoFar(es, m, i)[i] == Unset
    ensures ReadSoFar(es, m, i)[i := m.fields[i]] == ReadSoFar(es, m, i + 1)
  {
    assert Blank(es)[i] == Unset;
  }

  lemma {:induction false} RoundField(defs: Schema, e: Entry, f: Field, rest: seq<byte>)
    requires GoodField(defs, e, f) && !f.Unset? && !f.FArray?
    ensures UnmarshalField(defs, e, Unset, MarshalField(defs, e, f) + rest) ==
            Answer(First(ReadGapsField(defs, e, f)), Ok(Read(f, rest)))
    ensures Peek(MarshalField(defs, e, f) + rest) == Some(e.tag)
    decreases f, 0
  {
    hide WellFormed, Unmarshal, EvTag.Marshal, MarshalInt, PayloadLength, Peek, ReadGaps;
    match f
    case FInt(n) => UnmarshalMarshalInt(e.tag, n, rest);
    case FBytes(bs) =>
      RoundBytes(defs, e, bs, rest);
    case FStruct(m) =>
      GoodStruct(defs, e, m);
      Trip(defs, e.kind.ref, m);
      UnmarshalMarshal(e.tag, MarshalMsg(defs, e.kind.ref, m), rest);
  }

  lemma GoodStruct(defs: Schema, e: Entry, m: Msg)
    requires GoodField(defs, e, FStruct(m))
    ensures e.kind.KStruct? && Good(defs, e.kind.ref, m) && |MarshalMsg(defs, e.kind.ref, m)| < WRAP16
  {
    assert FitsPayload(defs, e.kind.ref, m);
  }

  lemma RoundBytes(defs: Schema, e: Entry, bs: seq<byte>, rest: seq<byte>)
    requires WellFormed(defs) && EntryOk(defs, e) && TypedField(defs, e, FBytes(bs)) && |bs| < WRAP16
    ensures UnmarshalField(defs, e, Unset, EvTag.Marshal(e.tag, bs) + rest) == Ok(Read(FBytes(bs), rest))
    ensures Peek(EvTag.Marshal(e.tag, bs) + rest) == Some(e.tag)
  {
    hide WellFormed, Unmarshal, EvTag.Marshal, PayloadLength, Peek;
    UnmarshalMarshal(e.tag, bs, rest);
    MarshalLonger(e.tag, bs);
    if e.kind.KString? {
      CStringWhole(bs);
    }
  }

  lemma MarshalLonger(tag: byte, bs: seq<byte>)
    requires |bs| < WRAP16
    ensures |EvTag.Marshal(tag, bs)| > |bs|
  {
  }

  // ---- arrays ---------------------------------------------------------------------------------------

  /** The fields when those before place i and j elements of its array have been read. */
  function ReadElements(es: seq<Entry>, m: Msg, i: nat, j: nat): (fs: seq<Field>)
    requires |m.fields| == |es| && i < |es| && m.fields[i].FArray? && j <= |m.fields[i].elements|
    ensures |fs| == |es|
  {
    m.fields[..i] + [FArray(m.fields[i].elements[..j])] + Blank(es)[i + 1..]
  }

  lemma ReadNone(defs: Schema, r: nat, m: Msg, i: nat)
    requires Typed(defs, r, m) && i < |m.fields| && m.fields[i].FArray?
    ensures ReadElements(defs[r], m, i, 0) == ReadSoFar(defs[r], m, i)
  {
    var es := defs[r];
    assert TypedField(defs, es[i], m.fields[i]);
    assert Blank(es)[i] == FArray([]);
    assert Blank(es)[i..] == [Blank(es)[i]] + Blank(es)[i + 1..];
  }

  lemma ReadAll(defs: Schema, r: nat, m: Msg, i: nat)
    requires Typed(defs, r, m) && i < |m.fields| && m.fields[i].FArray?
    ensures ReadElements(defs[r], m, i, |m.fields[i].elements|) == ReadSoFar(defs[r], m, i + 1)
  {
    var ms := m.fields[i].elements;
    assert ms[..|ms|] == ms;
    assert m.fields[..i + 1] == m.fields[..i] + [m.fields[i]];
  }

  lemma ArrayBytes(defs: Schema, r: nat, m: Msg, i: nat)
    requires Typed(defs, r, m) && i < |m.fields| && m.fields[i].FArray?
    requires TypedField(defs, defs[r][i], m.fields[i])
    ensures MarshalFrom(defs, r, m, i) ==
            MarshalElements(defs, defs[r][i], m.fields[i], 0) + MarshalFrom(defs, r, m, i + 1)
  {
  }

  lemma {:induction false} RoundElements(defs: Schema, r: nat, m: Msg, i: nat, j: nat)
    requires Good(defs, r, m) && i < |m.fields| && m.fields[i].FArray? && j <= |m.fields[i].elements|
    requires r < |defs| && |m.fields| == |defs[r]| && TypedField(defs, defs[r][i], m.fields[i])
    requires defs[r][i].kind.KArray?
    ensures var e, f, rest := defs[r][i], m.fields[i], MarshalFrom(defs, r, m, i + 1);
            Loop(defs, r, MarshalElements(defs, e, f, j) + rest, ReadElements(defs[r], m, i, j)) ==
            Answer(First(ReadGapsElements(defs, e, f, j)),
                   Loop(defs, r, rest, ReadElements(defs[r], m, i, |f.elements|)))
    decreases m, |m.fields| - i, 0, |m.fields[i].elements| - j
  {
    hide *;
    GoodParts(defs, r, m);
    var e, f := defs[r][i], m.fields[i];
    var rest := MarshalFrom(defs, r, m, i + 1);
    var end := Loop(defs, r, rest, ReadElements(defs[r], m, i, |f.elements|));
    if j == |f.elements| {
      NoElements(defs, e, f);
      NoAnswer(end);
      assert [] + rest == rest;
    } else {
      GoodElement(defs, r, m, i, j);
      Trip(defs, e.kind.ref, f.elements[j]);
      RoundElements(defs, r, m, i, j + 1);
      var more := MarshalElements(defs, e, f, j + 1) + rest;
      var gaps := ReadGaps(defs, e.kind.ref, f.elements[j]);
      ElementBytes(defs, e, f, j, rest);
      RoundElement(defs, r, m, i, j, more, First(gaps));
      AnswerOf(gaps, ReadGapsElements(defs, e, f, j + 1), end);
    }
  }

  lemma NoElements(defs: Schema, e: Entry, f: Field)
    requires TypedField(defs, e, f) && e.kind.KArray?
    ensures f.FArray? && MarshalElements(defs, e, f, |f.elements|) == []
    ensures ReadGapsElements(defs, e, f, |f.elements|) == []
  {
  }

  lemma ElementBytes(defs: Schema, e: Entry, f: Field, j: nat, rest: seq<byte>)
    requires TypedField(defs, e, f) && e.kind.KArray? && f.FArray? && j < |f.elements|
    requires Typed(defs, e.kind.ref, f.elements[j])
    ensures MarshalElements(defs, e, f, j) + rest ==
            EvTag.Marshal(e.tag, MarshalMsg(defs, e.kind.ref, f.elements[j])) +
            (MarshalElements(defs, e, f, j + 1) + rest)
    ensures ReadGapsElements(defs, e, f, j) ==
            ReadGaps(defs, e.kind.ref, f.elements[j]) + ReadGapsElements(defs, e, f, j + 1)
  {
    hide MarshalMsg, ReadGaps, Typed, EvTag.Marshal;
  }

  lemma GoodElement(defs: Schema, r: nat, m: Msg, i: nat, j: nat)
    requires Good(defs, r, m) && i < |m.fields| && m.fields[i].FArray? && j < |m.fields[i].elements|
    ensures WellFormed(defs) && Typed(defs, r, m)
    ensures TypedField(defs, defs[r][i], m.fields[i]) && EntryOk(defs, defs[r][i])
    ensures Good(defs, defs[r][i].kind.ref, m.fields[i].elements[j])
    ensures Typed(defs, defs[r][i].kind.ref, m.fields[i].elements[j])
    ensures |MarshalMsg(defs, defs[r][i].kind.ref, m.fields[i].elements[j])| < WRAP16
  {
    hide MarshalMsg;
    GoodAt(defs, r, m, i);
    var e, f := defs[r][i], m.fields[i];
    assert GoodField(defs, e, f);
    assert FitsPayload(defs, e.kind.ref, f.elements[j]);
  }

  /** One turn of the loop adds the next element. */
  lemma RoundElement(defs: Schema, r: nat, m: Msg, i: nat, j: nat, more: seq<byte>, c: Check)
    requires WellFormed(defs) && Typed(defs, r, m) && i < |m.fields| && m.fields[i].FArray?
    requires j < |m.fields[i].elements|
    requires TypedField(defs, defs[r][i], m.fields[i]) && EntryOk(defs, defs[r][i])
    requires var ref, el := defs[r][i].kind.ref, m.fields[i].elements[j];
             && |MarshalMsg(defs, ref, el)| < WRAP16
             && UnmarshalMsg(defs, ref, MarshalMsg(defs, ref, el)) == Answer(c, Ok(el))
    ensures var e, el := defs[r][i], m.fields[i].elements[j];
            Loop(defs, r, EvTag.Marshal(e.tag, MarshalMsg(defs, e.kind.ref, el)) + more,
                 ReadElements(defs[r], m, i, j)) ==
            Answer(c, Loop(defs, r, more, ReadElements(defs[r], m, i, j + 1)))
  {
    hide MarshalMsg, UnmarshalMsg, Unmarshal, EvTag.Marshal, Typed, PayloadLength, WellFormed, Blank, ReadElements;
    TypedSize(defs, r, m);
    var e, el := defs[r][i], m.fields[i].elements[j];
    var payload := MarshalMsg(defs, e.kind.ref, el);
    var buf := EvTag.Marshal(e.tag, payload) + more;
    WellFormedAt(defs, r);
    TagFound(defs[r], i);
    UnmarshalMarshal(e.tag, payload, more);
    ElementRead(defs[r], m, i, j);
    var fs := ReadElements(defs[r], m, i, j);
    assert UnmarshalField(defs, e, fs[i], buf) == Answer(c, Ok(Read(FArray(m.fields[i].elements[..j + 1]), more)));
    assert buf != [];
  }

  lemma WellFormedAt(defs: Schema, r: nat)
    requires WellFormed(defs) && r < |defs|
    ensures DistinctTags(defs[r])
  {
    assert StructOk(defs, defs[r]);
  }

  lemma ElementRead(es: seq<Entry>, m: Msg, i: nat, j: nat)
    requires |m.fields| == |es| && i < |es| && m.fields[i].FArray? && j < |m.fields[i].elements|
    ensures var fs, ms := ReadElements(es, m, i, j), m.fields[i].elements;
            && fs[i] == FArray(ms[..j]) && ms[..j] + [ms[j]] == ms[..j + 1]
            && fs[i := FArray(ms[..j + 1])] == ReadElements(es, m, i, j + 1)
  {
  }

  // ---- messages without gaps --------------------------------------------------------------------------

  /** Without a gap the message comes back. */
  lemma RoundTrip(defs: Schema, r: nat, m: Msg)
    requires Good(defs, r, m) && Met(defs, r, m)
    ensures UnmarshalMsg(defs, r, MarshalMsg(defs, r, m)) == Ok(m)
  {
    hide Met, Typed, WellFormed, Fits;
    Trip(defs, r, m);
    MetReads(defs, r, m);
    NoAnswer(Ok(m));
  }
}
