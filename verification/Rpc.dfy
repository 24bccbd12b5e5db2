/** The meaning of the C that event_rpcgen.py generates from a parsed schema: X_marshal, X_unmarshal,
    X_complete and evtag_(un)marshal_X. */
module Rpc {
  import opened Seqs
  import opened EvTag

  datatype Kind =
    | KInt
    | KBytes(length: nat)
    | KVarBytes
    | KString
    | KStruct(ref: nat)
    | KArray(ref: nat)

  datatype Entry = Entry(tag: byte, kind: Kind, optional: bool)

  /** The structs of one file; entries refer to a struct by its place. */
  type Schema = seq<seq<Entry>>

  datatype Msg = Msg(fields: seq<Field>)
  datatype Field =
    | Unset
    | FInt(number: nat)
    | FBytes(bytes: seq<byte>)
    | FStruct(msg: Msg)
    | FArray(elements: seq<Msg>)

  // ---- schemas and messages ------------------------------------------------------------------

  /** What AddEntry and Verify let through, with every struct reference resolved. */
  predicate EntryOk(defs: Schema, e: Entry) {
    && (e.kind.KStruct? || e.kind.KArray? ==> e.kind.ref < |defs|)
    && (e.kind.KArray? ==> !e.optional)
  }

  predicate DistinctTags(es: seq<Entry>) {
    forall i, j :: 0 <= i < j < |es| ==> es[i].tag != es[j].tag
  }

  predicate StructOk(defs: Schema, es: seq<Entry>) {
    DistinctTags(es) && forall i :: 0 <= i < |es| ==> EntryOk(defs, es[i])
  }

  predicate WellFormed(defs: Schema) {
    forall r :: 0 <= r < |defs| ==> StructOk(defs, defs[r])
  }

  /** A message in the shape of struct r. */
  predicate Typed(defs: Schema, r: nat, m: Msg)
    decreases m, 1
  {
    && r < |defs| && |m.fields| == |defs[r]|
    && forall i :: 0 <= i < |m.fields| ==> TypedField(defs, defs[r][i], m.fields[i])
  }

  predicate TypedField(defs: Schema, e: Entry, f: Field)
    decreases f, 0
  {
    match e.kind
    case KInt => f.Unset? || (f.FInt? && f.number < WRAP32)
    case KBytes(n) => f.Unset? || (f.FBytes? && |f.bytes| == n)
    case KVarBytes => f.Unset? || (f.FBytes? && |f.bytes| < WRAP32)
    case KString => f.Unset? || (f.FBytes? && 0 !in f.bytes)
    case KStruct(ref) => f.Unset? || (f.FStruct? && Typed(defs, ref, f.msg))
    case KArray(ref) => f.FArray? && forall j :: 0 <= j < |f.elements| ==> Typed(defs, ref, f.elements[j])
  }

  /** Every required entry is set, in nested messages as well. */
  predicate Full(defs: Schema, r: nat, m: Msg)
    requires Typed(defs, r, m)
    decreases m, 1
  {
    forall i :: 0 <= i < |m.fields| ==> FullField(defs, defs[r][i], m.fields[i])
  }

  predicate FullField(defs: Schema, e: Entry, f: Field)
    requires TypedField(defs, e, f)
    decreases f, 0
  {
    match f
    case Unset => e.optional
    case FInt(_) => true
    case FBytes(_) => true
    case FStruct(m) => Full(defs, e.kind.ref, m)
    case FArray(ms) => forall j :: 0 <= j < |ms| ==> Full(defs, e.kind.ref, ms[j])
  }

  // ---- X_marshal -----------------------------------------------------------------------------------

  /** X_marshal: the entries in schema order. */
  function MarshalMsg(defs: Schema, r: nat, m: Msg): seq<byte>
    requires Typed(defs, r, m)
    decreases m, |m.fields| + 1
  {
    MarshalFrom(defs, r, m, 0)
  }

  function MarshalFrom(defs: Schema, r: nat, m: Msg, i: nat): seq<byte>
    requires Typed(defs, r, m) && i <= |m.fields|
    decreases m, |m.fields| - i
  {
    if i == |m.fields| then [] else MarshalField(defs, defs[r][i], m.fields[i]) + MarshalFrom(defs, r, m, i + 1)
  }

  function MarshalField(defs: Schema, e: Entry, f: Field): seq<byte>
    requires TypedField(defs, e, f)
    decreases f, if f.FArray? then |f.elements| + 1 else 0
  {
    match f
    case Unset => []
    case FInt(n) => MarshalInt(e.tag, n)
    case FBytes(bs) => Marshal(e.tag, bs)
    case FStruct(m) => Marshal(e.tag, MarshalMsg(defs, e.kind.ref, m))
    case FArray(ms) => MarshalElements(defs, e, f, 0)
  }

  function MarshalElements(defs: Schema, e: Entry, f: Field, j: nat): seq<byte>
    requires TypedField(defs, e, f) && e.kind.KArray? && j <= |f.elements|
    decreases f, |f.elements| - j
  {
    if j == |f.elements| then []
    else Marshal(e.tag, MarshalMsg(defs, e.kind.ref, f.elements[j])) + MarshalElements(defs, e, f, j + 1)
  }

  /** No payload, at any depth, is longer than the 16 bits evtag_marshal takes. */
  predicate Fits(defs: Schema, r: nat, m: Msg)
    requires Typed(defs, r, m)
    decreases m, 1
  {
    forall i :: 0 <= i < |m.fields| ==> FitsField(defs, defs[r][i], m.fields[i])
  }

  predicate FitsField(defs: Schema, e: Entry, f: Field)
    requires TypedField(defs, e, f)
    decreases f, 0
  {
    match f
    case Unset => true
    case FInt(_) => true
    case FBytes(bs) => |bs| < WRAP16
    case FStruct(m) => FitsPayload(defs, e.kind.ref, m)
    case FArray(ms) => forall j :: 0 <= j < |ms| ==> FitsPayload(defs, e.kind.ref, ms[j])
  }

  predicate FitsPayload(defs: Schema, r: nat, m: Msg)
    requires Typed(defs, r, m)
    decreases m, 2
  {
    |MarshalMsg(defs, r, m)| < WRAP16 && Fits(defs, r, m)
  }

  // ---- X_complete -------------------------------------------------------------------------------------

  /** How X_complete ends; Broken stands for following a NULL pointer. */
  datatype Check = Done | Incomplete | Broken

  function Complete(defs: Schema, r: nat, m: Msg): Check
    requires WellFormed(defs) && r < |defs|
    decreases m, |defs[r]| + 1
  {
    CompleteFrom(defs, r, m, 0)
  }

  function CompleteFrom(defs: Schema, r: nat, m: Msg, i: nat): Check
    requires WellFormed(defs) && r < |defs| && i <= |defs[r]|
    decreases m, |defs[r]| - i
  {
    if i == |defs[r]| || i >= |m.fields| then Done
    else
      var c := CompleteField(defs, defs[r][i], m.fields[i]);
      if c != Done then c else CompleteFrom(defs, r, m, i + 1)
  }

  /** CodeComplete of each kind; that of a required struct does not look at its _set flag. */
  function CompleteField(defs: Schema, e: Entry, f: Field): Check
    requires WellFormed(defs) && EntryOk(defs, e)
    decreases f, if f.FArray? then |f.elements| + 1 else 0
  {
    match e.kind
    case KStruct(ref) =>
      if f.FStruct? then Complete(defs, ref, f.msg)
      else if e.optional then Done
      else CompleteNull(defs[ref])
    case KArray(ref) => if f.FArray? then CompleteElements(defs, ref, f, 0) else Done
    case _ => if f.Unset? && !e.optional then Incomplete else Done
  }

  function CompleteElements(defs: Schema, r: nat, f: Field, j: nat): Check
    requires WellFormed(defs) && r < |defs| && f.FArray? && j <= |f.elements|
    decreases f, |f.elements| - j
  {
    if j == |f.elements| then Done
    else
      var c := Complete(defs, r, f.elements[j]);
      if c != Done then c else CompleteElements(defs, r, f, j + 1)
  }

  /** X_complete(NULL): only optional entries other than structs generate no access. */
  function CompleteNull(es: seq<Entry>): Check {
    if Hollow(es) then Done else Broken
  }

  predicate Hollow(es: seq<Entry>) {
    forall i :: 0 <= i < |es| ==> es[i].optional && !es[i].kind.KStruct? && !es[i].kind.KArray?
  }

  /** No entry that must be set is of a struct that may be left out unnoticed. */
  predicate NoHollow(defs: Schema)
    requires WellFormed(defs)
  {
    forall r, i :: 0 <= r < |defs| && 0 <= i < |defs[r]| ==> NotHollow(defs, defs[r][i])
  }

  predicate NotHollow(defs: Schema, e: Entry) {
    e.kind.KStruct? && !e.optional && e.kind.ref < |defs| ==> !Hollow(defs[e.kind.ref])
  }

  // ---- X_unmarshal ------------------------------------------------------------------------------------

  datatype Result<+T> = Ok(value: T) | Fail | Crash

  datatype Read = Read(field: Field, rest: seq<byte>)

  /** The message X_new makes. */
  function Blank(es: seq<Entry>): (fs: seq<Field>)
    ensures |fs| == |es|
  {
    seq(|es|, i requires 0 <= i < |es| => BlankField(es[i]))
  }

  function BlankField(e: Entry): Field {
    if e.kind.KArray? then FArray([]) else Unset
  }

  /** The case label of the switch that a tag reaches, or the number of entries for the default. */
  function FindTag(es: seq<Entry>, tag: byte): (i: nat)
    ensures i <= |es| && (i < |es| ==> es[i].tag == tag)
    ensures forall k :: 0 <= k < i ==> es[k].tag != tag
  {
    if es == [] || es[0].tag == tag then 0 else 1 + FindTag(es[1..], tag)
  }

  function UnmarshalMsg(defs: Schema, r: nat, buf: seq<byte>): Result<Msg>
    requires WellFormed(defs) && r < |defs|
    decreases |buf|, 2
  {
    Loop(defs, r, buf, Blank(defs[r]))
  }

  function Loop(defs: Schema, r: nat, buf: seq<byte>, fields: seq<Field>): Result<Msg>
    requires WellFormed(defs) && r < |defs| && |fields| == |defs[r]|
    decreases |buf|, 1
  {
    if buf == [] then Finish(defs, r, Msg(fields))
    else if Peek(buf).None? then Fail
    else
      var i := FindTag(defs[r], Peek(buf).value);
      if i == |defs[r]| then Fail
      else if !defs[r][i].kind.KArray? && fields[i] != Unset then Fail
      else
        var got := UnmarshalField(defs, defs[r][i], fields[i], buf);
        match got
        case Ok(read) => Loop(defs, r, read.rest, fields[i := read.field])
        case Fail => Fail
        case Crash => Crash
  }

  function Finish(defs: Schema, r: nat, m: Msg): Result<Msg>
    requires WellFormed(defs) && r < |defs|
  {
    match Complete(defs, r, m)
    case Done => Ok(m)
    case Incomplete => Fail
    case Broken => Crash
  }

  /** CodeUnmarshal of each kind: the field's new value and what is left of the buffer. */
  function UnmarshalField(defs: Schema, e: Entry, was: Field, buf: seq<byte>): (res: Result<Read>)
    requires WellFormed(defs) && EntryOk(defs, e)
    ensures res.Ok? ==> |res.value.rest| < |buf|
    decreases |buf|, 0
  {
    match e.kind
    case KInt =>
      var got := UnmarshalInt(buf, e.tag);
      if got.None? then Fail else Ok(Read(FInt(got.value.0), got.value.1))
    case KBytes(n) =>
      var got := UnmarshalFixed(buf, e.tag, n);
      if got.None? then Fail else Ok(Read(FBytes(got.value.0), got.value.1))
    case KVarBytes =>
      var len := PayloadLength(buf);
      if len.None? || len.value > |buf| then Fail
      else
        var got := UnmarshalFixed(buf, e.tag, len.value);
        if got.None? then Fail else Ok(Read(FBytes(got.value.0), got.value.1))
    case KString =>
      var got := UnmarshalString(buf, e.tag);
      if got.None? then Fail else Ok(Read(FBytes(got.value.0), got.value.1))
    case KStruct(ref) =>
      var t := Unmarshal(buf);
      if t.None? || t.value.tag != e.tag then Fail
      else
        (match UnmarshalMsg(defs, ref, t.value.payload)
         case Ok(m) => Ok(Read(FStruct(m), t.value.rest))
         case Fail => Fail
         case Crash => Crash)
    case KArray(ref) =>
      var t := Unmarshal(buf);
      if t.None? || t.value.tag != e.tag then Fail
      else
        (match UnmarshalMsg(defs, ref, t.value.payload)
         case Ok(m) => Ok(Read(FArray((if was.FArray? then was.elements else []) + [m]), t.value.rest))
         case Fail => Fail
         case Crash => Crash)
  }
}
