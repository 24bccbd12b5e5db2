/** Which required entries a message lacks, and what X_complete makes of them. */
module RpcGaps {
  import opened Seqs
  import opened EvTag
  import opened Rpc

  // ---- the entries that are missing ---------------------------------------------------------------

  /** X_complete of an unset struct entry goes through without reading anything. */
  predicate Silent(defs: Schema, e: Entry) {
    e.kind.KStruct? && e.kind.ref < |defs| && Hollow(defs[e.kind.ref])
  }

  /** A required entry that is not set; null if it is a struct, whose NULL pointer X_complete follows. */
  datatype Gap = Gap(tag: byte, isNull: bool)

  function OwnGap(defs: Schema, e: Entry): seq<Gap> {
    if e.optional || Silent(defs, e) then [] else [Gap(e.tag, e.kind.KStruct?)]
  }

  /** The gaps of a message, in schema order and depth first. */
  function Gaps(defs: Schema, r: nat, m: Msg): seq<Gap>
    requires Typed(defs, r, m)
    decreases m, |m.fields| + 1
  {
    GapsFrom(defs, r, m, 0)
  }

  function GapsFrom(defs: Schema, r: nat, m: Msg, i: nat): seq<Gap>
    requires Typed(defs, r, m) && i <= |m.fields|
    decreases m, |m.fields| - i
  {
    if i == |m.fields| then [] else GapsField(defs, defs[r][i], m.fields[i]) + GapsFrom(defs, r, m, i + 1)
  }

  function GapsField(defs: Schema, e: Entry, f: Field): seq<Gap>
    requires TypedField(defs, e, f)
    decreases f, if f.FArray? then |f.elements| + 1 else 0
  {
    match f
    case Unset => OwnGap(defs, e)
    case FStruct(m) => Gaps(defs, e.kind.ref, m)
    case FArray(ms) => GapsElements(defs, e, f, 0)
    case _ => []
  }

  function GapsElements(defs: Schema, e: Entry, f: Field, j: nat): seq<Gap>
    requires TypedField(defs, e, f) && e.kind.KArray? && j <= |f.elements|
    decreases f, |f.elements| - j
  {
    if j == |f.elements| then []
    else Gaps(defs, e.kind.ref, f.elements[j]) + GapsElements(defs, e, f, j + 1)
  }

  /** What the first gap leads to. */
  function First(gaps: seq<Gap>): Check {
    if gaps == [] then Done else if gaps[0].isNull then Broken else Incomplete
  }

  lemma FirstOf(a: seq<Gap>, b: seq<Gap>)
    ensures First(a + b) == if First(a) != Done then First(a) else First(b)
    ensures First(a) == Done <==> a == []
  {
    if a == [] {
      assert a + b == b;
    } else {
      assert (a + b)[0] == a[0];
    }
  }

  // ---- X_complete reports the first gap -----------------------------------------------------------------

  lemma TypedPart(defs: Schema, r: nat, m: Msg, i: nat)
    requires WellFormed(defs) && Typed(defs, r, m) && i < |m.fields|
    ensures r < |defs| && |m.fields| == |defs[r]| && EntryOk(defs, defs[r][i])
    ensures TypedField(defs, defs[r][i], m.fields[i])
  {
    hide TypedField, EntryOk;
    assert StructOk(defs, defs[r]);
  }

  /** X_complete is done, reports -1 or follows a NULL pointer by the first required entry that is not set. */
  lemma {:induction false} CompleteGaps(defs: Schema, r: nat, m: Msg)
    requires WellFormed(defs) && Typed(defs, r, m)
    ensures Complete(defs, r, m) == First(Gaps(defs, r, m))
    decreases m, |m.fields| + 1
  {
    hide WellFormed, First;
    CompleteGapsFrom(defs, r, m, 0);
  }

  lemma {:induction false} CompleteGapsFrom(defs: Schema, r: nat, m: Msg, i: nat)
    requires WellFormed(defs) && Typed(defs, r, m) && i <= |m.fields|
    ensures CompleteFrom(defs, r, m, i) == First(GapsFrom(defs, r, m, i))
    decreases m, |m.fields| - i
  {
    hide WellFormed, First, Typed, TypedField, CompleteField, GapsField, EntryOk;
    TypedSize(defs, r, m);
    FirstOf([], []);
    if i < |m.fields| {
      TypedPart(defs, r, m, i);
      CompleteGapsField(defs, defs[r][i], m.fields[i]);
      CompleteGapsFrom(defs, r, m, i + 1);
      FirstOf(GapsField(defs, defs[r][i], m.fields[i]), GapsFrom(defs, r, m, i + 1));
    }
  }

  lemma TypedSize(defs: Schema, r: nat, m: Msg)
    requires Typed(defs, r, m)
    ensures r < |defs| && |m.fields| == |defs[r]|
  {
  }

  lemma {:induction false} CompleteGapsField(defs: Schema, e: Entry, f: Field)
    requires WellFormed(defs) && EntryOk(defs, e) && TypedField(defs, e, f)
    ensures CompleteField(defs, e, f) == First(GapsField(defs, e, f))
    decreases f, if f.FArray? then |f.elements| + 1 else 0
  {
    hide WellFormed, Typed, Complete, CompleteElements, Gaps, GapsElements, Hollow;
    if f.FStruct? {
      CompleteGaps(defs, e.kind.ref, f.msg);
    } else if f.FArray? {
      CompleteGapsElements(defs, e, f, 0);
    }
  }

  lemma {:induction false} CompleteGapsElements(defs: Schema, e: Entry, f: Field, j: nat)
    requires WellFormed(defs) && EntryOk(defs, e) && TypedField(defs, e, f)
    requires e.kind.KArray? && j <= |f.elements|
    ensures CompleteElements(defs, e.kind.ref, f, j) == First(GapsElements(defs, e, f, j))
    decreases f, |f.elements| - j
  {
    hide WellFormed, First, Complete, Gaps;
    FirstOf([], []);
    if j < |f.elements| {
      CompleteGaps(defs, e.kind.ref, f.elements[j]);
      CompleteGapsElements(defs, e, f, j + 1);
      FirstOf(Gaps(defs, e.kind.ref, f.elements[j]), GapsElements(defs, e, f, j + 1));
    }
  }

  // ---- messages without gaps ------------------------------------------------------------------------------

  /** Every required entry is set, or of a struct with optional plain entries only; in nested messages as well. */
  predicate Met(defs: Schema, r: nat, m: Msg)
    requires Typed(defs, r, m)
    decreases m, 1
  {
    forall i :: 0 <= i < |m.fields| ==> MetField(defs, defs[r][i], m.fields[i])
  }

  predicate MetField(defs: Schema, e: Entry, f: Field)
    requires TypedField(defs, e, f)
    decreases f, 0
  {
    match f
    case Unset => e.optional || Silent(defs, e)
    case FInt(_) => true
    case FBytes(_) => true
    case FStruct(m) => Met(defs, e.kind.ref, m)
    case FArray(ms) => forall j :: 0 <= j < |ms| ==> Met(defs, e.kind.ref, ms[j])
  }

  lemma {:induction false} NoGaps(defs: Schema, r: nat, m: Msg)
    requires Typed(defs, r, m)
    ensures Gaps(defs, r, m) == [] <==> Met(defs, r, m)
    decreases m, |m.fields| + 1
  {
    NoGapsFrom(defs, r, m, 0);
  }

  lemma {:induction false} NoGapsFrom(defs: Schema, r: nat, m: Msg, i: nat)
    requires Typed(defs, r, m) && i <= |m.fields|
    ensures GapsFrom(defs, r, m, i) == [] <==>
            forall k :: i <= k < |m.fields| ==> MetField(defs, defs[r][k], m.fields[k])
    decreases m, |m.fields| - i
  {
    hide GapsField, MetField, TypedField;
    if i < |m.fields| {
      NoGapsField(defs, defs[r][i], m.fields[i]);
      NoGapsFrom(defs, r, m, i + 1);
    }
  }

  lemma {:induction false} NoGapsField(defs: Schema, e: Entry, f: Field)
    requires TypedField(defs, e, f)
    ensures GapsField(defs, e, f) == [] <==> MetField(defs, e, f)
    decreases f, if f.FArray? then |f.elements| + 1 else 0
  {
    hide Gaps, GapsElements, Met, Typed, Hollow;
    if f.FStruct? {
      NoGaps(defs, e.kind.ref, f.msg);
    } else if f.FArray? {
      NoGapsElements(defs, e, f, 0);
    }
  }

  lemma {:induction false} NoGapsElements(defs: Schema, e: Entry, f: Field, j: nat)
    requires TypedField(defs, e, f) && e.kind.KArray? && j <= |f.elements|
    ensures GapsElements(defs, e, f, j) == [] <==>
            forall k :: j <= k < |f.elements| ==> Met(defs, e.kind.ref, f.elements[k])
    decreases f, |f.elements| - j
  {
    hide Gaps, Met, Typed;
    if j < |f.elements| {
      NoGaps(defs, e.kind.ref, f.elements[j]);
      NoGapsElements(defs, e, f, j + 1);
    }
  }

  /** A full message has no gaps. */
  lemma {:induction false} FullMet(defs: Schema, r: nat, m: Msg)
    requires Typed(defs, r, m) && Full(defs, r, m)
    ensures Met(defs, r, m)
    decreases m, 1
  {
    forall i | 0 <= i < |m.fields| ensures MetField(defs, defs[r][i], m.fields[i]) {
      assert FullField(defs, defs[r][i], m.fields[i]);
      FullMetField(defs, defs[r][i], m.fields[i]);
    }
  }

  lemma {:induction false} FullMetField(defs: Schema, e: Entry, f: Field)
    requires TypedField(defs, e, f) && FullField(defs, e, f)
    ensures MetField(defs, e, f)
    decreases f, 0
  {
    if f.FStruct? {
      FullMet(defs, e.kind.ref, f.msg);
    } else if f.FArray? {
      forall j | 0 <= j < |f.elements| ensures Met(defs, e.kind.ref, f.elements[j]) {
        FullMet(defs, e.kind.ref, f.elements[j]);
      }
    }
  }

  // ---- the gaps in the order in which X_unmarshal comes to them ---------------------------------------

  /** The gaps of nested messages come first: each is checked as soon as it has been read. */
  function ReadGaps(defs: Schema, r: nat, m: Msg): seq<Gap>
    requires Typed(defs, r, m)
    decreases m, |m.fields| + 1
  {
    ReadGapsFrom(defs, r, m, 0) + OwnGaps(defs, r, m, 0)
  }

  function ReadGapsFrom(defs: Schema, r: nat, m: Msg, i: nat): seq<Gap>
    requires Typed(defs, r, m) && i <= |m.fields|
    decreases m, |m.fields| - i
  {
    if i == |m.fields| then []
    else ReadGapsField(defs, defs[r][i], m.fields[i]) + ReadGapsFrom(defs, r, m, i + 1)
  }

  function ReadGapsField(defs: Schema, e: Entry, f: Field): seq<Gap>
    requires TypedField(defs, e, f)
    decreases f, if f.FArray? then |f.elements| + 1 else 0
  {
    match f
    case FStruct(m) => ReadGaps(defs, e.kind.ref, m)
    case FArray(ms) => ReadGapsElements(defs, e, f, 0)
    case _ => []
  }

  function ReadGapsElements(defs: Schema, e: Entry, f: Field, j: nat): seq<Gap>
    requires TypedField(defs, e, f) && e.kind.KArray? && j <= |f.elements|
    decreases f, |f.elements| - j
  {
    if j == |f.elements| then []
    else ReadGaps(defs, e.kind.ref, f.elements[j]) + ReadGapsElements(defs, e, f, j + 1)
  }

  /** The gaps of the message itself. */
  function OwnGaps(defs: Schema, r: nat, m: Msg, i: nat): seq<Gap>
    requires Typed(defs, r, m) && i <= |m.fields|
    decreases |m.fields| - i
  {
    if i == |m.fields| then []
    else (if m.fields[i].Unset? then OwnGap(defs, defs[r][i]) else []) + OwnGaps(defs, r, m, i + 1)
  }

  /** When the nested messages have no gaps, those of the message are its own. */
  lemma {:induction false} OnlyOwn(defs: Schema, r: nat, m: Msg, i: nat)
    requires Typed(defs, r, m) && i <= |m.fields| && ReadGapsFrom(defs, r, m, i) == []
    ensures GapsFrom(defs, r, m, i) == OwnGaps(defs, r, m, i)
    decreases m, |m.fields| - i
  {
    hide GapsField, ReadGapsField, TypedField, OwnGap;
    if i < |m.fields| {
      OnlyOwnField(defs, defs[r][i], m.fields[i]);
      OnlyOwn(defs, r, m, i + 1);
    }
  }

  lemma {:induction false} OnlyOwnField(defs: Schema, e: Entry, f: Field)
    requires TypedField(defs, e, f) && ReadGapsField(defs, e, f) == []
    ensures GapsField(defs, e, f) == if f.Unset? then OwnGap(defs, e) else []
    decreases f, if f.FArray? then |f.elements| + 1 else 0
  {
    hide Typed, Gaps, ReadGaps, OwnGap;
    if f.FStruct? {
      NoReadGaps(defs, e.kind.ref, f.msg);
    } else if f.FArray? {
      NoReadGapsElements(defs, e, f, 0);
    }
  }

  lemma {:induction false} NoReadGaps(defs: Schema, r: nat, m: Msg)
    requires Typed(defs, r, m) && ReadGaps(defs, r, m) == []
    ensures Gaps(defs, r, m) == []
    decreases m, |m.fields| + 1
  {
    OnlyOwn(defs, r, m, 0);
  }

  lemma {:induction false} NoReadGapsElements(defs: Schema, e: Entry, f: Field, j: nat)
    requires TypedField(defs, e, f) && e.kind.KArray? && j <= |f.elements|
    requires ReadGapsElements(defs, e, f, j) == []
    ensures GapsElements(defs, e, f, j) == []
    decreases f, |f.elements| - j
  {
    hide Gaps, ReadGaps, Typed;
    if j < |f.elements| {
      NoReadGaps(defs, e.kind.ref, f.elements[j]);
      NoReadGapsElements(defs, e, f, j + 1);
    }
  }

  /** Either order has gaps or none has. */
  lemma {:induction false} MetReads(defs: Schema, r: nat, m: Msg)
    requires Typed(defs, r, m)
    ensures ReadGaps(defs, r, m) == [] <==> Met(defs, r, m)
    decreases m, |m.fields| + 1
  {
    if ReadGaps(defs, r, m) == [] {
      NoReadGaps(defs, r, m);
      NoGaps(defs, r, m);
    } else if Met(defs, r, m) {
      MetReadsFrom(defs, r, m, 0);
    }
  }

  lemma {:induction false} MetReadsFrom(defs: Schema, r: nat, m: Msg, i: nat)
    requires Typed(defs, r, m) && Met(defs, r, m) && i <= |m.fields|
    ensures ReadGapsFrom(defs, r, m, i) == [] && OwnGaps(defs, r, m, i) == []
    decreases m, |m.fields| - i
  {
    if i < |m.fields| {
      assert MetField(defs, defs[r][i], m.fields[i]);
      MetReadsField(defs, defs[r][i], m.fields[i]);
      MetReadsFrom(defs, r, m, i + 1);
    }
  }

  lemma {:induction false} MetReadsField(defs: Schema, e: Entry, f: Field)
    requires TypedField(defs, e, f) && MetField(defs, e, f)
    ensures ReadGapsField(defs, e, f) == [] && (f.Unset? ==> OwnGap(defs, e) == [])
    decreases f, if f.FArray? then |f.elements| + 1 else 0
  {
    hide Typed, ReadGaps, Met, Hollow;
    if f.FStruct? {
      MetReads(defs, e.kind.ref, f.msg);
    } else if f.FArray? {
      MetReadsElements(defs, e, f, 0);
    }
  }

  lemma {:induction false} MetReadsElements(defs: Schema, e: Entry, f: Field, j: nat)
    requires TypedField(defs, e, f) && MetField(defs, e, f) && e.kind.KArray? && j <= |f.elements|
    ensures ReadGapsElements(defs, e, f, j) == []
    decreases f, |f.elements| - j
  {
    hide ReadGaps, Met, Typed;
    if j < |f.elements| {
      MetReads(defs, e.kind.ref, f.elements[j]);
      MetReadsElements(defs, e, f, j + 1);
    }
  }
}
