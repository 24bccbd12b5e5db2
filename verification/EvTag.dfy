/** The tag, length and value coding of event_tagging.c, on the bytes of an evbuffer.
    Masks and shifts of nibbles are written as division and remainder by 16. */
module EvTag {
  import opened Seqs

  type byte = x: int | 0 <= x < 256

  const WRAP16: nat := 65536
  const WRAP32: nat := 0x1_0000_0000

  // ---- integers -----------------------------------------------------------------------------

  /** How many nibbles a number has; none for zero. */
  function Nibbles(n: nat): nat {
    if n == 0 then 0 else 1 + Nibbles(n / 16)
  }

  /** The nibbles of a number, lowest first, two to a byte, the first of each in the high half. */
  function Pairs(m: nat): seq<byte> {
    if m == 0 then [] else [(m % 16) * 16 + (m / 16) % 16] + Pairs(m / 256)
  }

  /** encode_int: the high half of the first byte counts the nibbles after the first. */
  function Encode(n: nat): seq<byte>
    requires n < WRAP32
  {
    NibblesBound(n / 16, 7);
    [Nibbles(n / 16) * 16 + n % 16] + Pairs(n / 16)
  }

  function Pow16(k: nat): nat {
    if k == 0 then 1 else 16 * Pow16(k - 1)
  }

  lemma {:induction false} NibblesBound(m: nat, k: nat)
    requires m < Pow16(k)
    ensures Nibbles(m) <= k
  {
    if m > 0 {
      NibblesBound(m / 16, k - 1);
    }
  }

  /** The value of c nibbles, as Pairs lays them out. */
  function Value(bs: seq<byte>, c: nat): nat
    requires 2 * |bs| >= c
    decreases c
  {
    if c == 0 then 0
    else if c == 1 then bs[0] / 16
    else bs[0] / 16 + 16 * (bs[0] % 16 + 16 * Value(bs[1..], c - 2))
  }

  /** A decoded number and how many bytes it took. */
  datatype Decoded = Decoded(number: nat, len: nat)

  /** decode_int_internal */
  function Decode(bs: seq<byte>): (r: Option<Decoded>)
    ensures r.Some? ==> 1 <= r.value.len <= |bs|
  {
    if bs == [] then None
    else
      var nibbles := bs[0] / 16 + 1;
      if nibbles > 8 || nibbles / 2 > |bs| - 1 then None
      else Some(Decoded(bs[0] % 16 + 16 * Value(bs[1..], nibbles - 1), nibbles / 2 + 1))
  }

  lemma {:induction false} PairsLength(m: nat)
    ensures |Pairs(m)| == (Nibbles(m) + 1) / 2
  {
    if m >= 16 {
      assert (m / 16) / 16 == m / 256;
      PairsLength(m / 256);
    }
  }

  /** Two nibbles in one byte come apart again. */
  lemma TwoNibbles(m: nat)
    ensures var b := (m % 16) * 16 + (m / 16) % 16;
            b < 256 && b / 16 == m % 16 && b % 16 == (m / 16) % 16
    ensures m == m % 16 + 16 * ((m / 16) % 16 + 16 * (m / 256))
  {
    assert (m / 16) / 16 == m / 256;
  }

  lemma ValueTwo(b: byte, bs: seq<byte>, c: nat)
    requires c >= 2 && 2 * (|bs| + 1) >= c
    ensures Value([b] + bs, c) == b / 16 + 16 * (b % 16 + 16 * Value(bs, c - 2))
  {
    assert ([b] + bs)[1..] == bs;
  }

  lemma {:induction false} ValuePairs(m: nat, rest: seq<byte>)
    ensures |Pairs(m)| == (Nibbles(m) + 1) / 2 && Value(Pairs(m) + rest, Nibbles(m)) == m
  {
    hide Value;
    PairsLength(m);
    if m >= 16 {
      var b := (m % 16) * 16 + (m / 16) % 16;
      TwoNibbles(m);
      ValuePairs(m / 256, rest);
      assert Nibbles(m) == 2 + Nibbles(m / 256) by {
        assert (m / 16) / 16 == m / 256;
      }
      assert Pairs(m) + rest == [b] + (Pairs(m / 256) + rest);
      ValueTwo(b, Pairs(m / 256) + rest, Nibbles(m));
    } else {
      ValuePairsShort(m, rest);
    }
  }

  lemma ValuePairsShort(m: nat, rest: seq<byte>)
    requires m < 16
    ensures |Pairs(m)| == (Nibbles(m) + 1) / 2 && Value(Pairs(m) + rest, Nibbles(m)) == m
  {
    if m > 0 {
      assert Nibbles(m) == 1 && Pairs(m) == [m * 16];
      assert (Pairs(m) + rest)[0] == m * 16;
    }
  }

  lemma HeadNibbles(k: nat, n: nat)
    requires k <= 7
    ensures var h := k * 16 + n % 16; h < 256 && h / 16 == k && h % 16 == n % 16
  {
  }

  /** decode_int undoes encode_int, whatever follows, and takes exactly its bytes. */
  lemma DecodeEncode(n: nat, rest: seq<byte>)
    requires n < WRAP32
    ensures Decode(Encode(n) + rest) == Some(Decoded(n, |Encode(n)|))
  {
    hide Value, Pairs, Nibbles;
    NibblesBound(n / 16, 7);
    ValuePairs(n / 16, rest);
    var k := Nibbles(n / 16);
    HeadNibbles(k, n);
    var bs := Encode(n) + rest;
    assert bs[0] == k * 16 + n % 16 && bs[1..] == Pairs(n / 16) + rest;
    assert |Encode(n)| == 1 + |Pairs(n / 16)|;
  }

  // ---- no coding of a number is shorter -----------------------------------------------------------

  lemma {:induction false} ValueBound(bs: seq<byte>, c: nat)
    requires 2 * |bs| >= c
    ensures Value(bs, c) < Pow16(c)
  {
    if c >= 2 {
      ValueBound(bs[1..], c - 2);
      assert Pow16(c) == 16 * (16 * Pow16(c - 2));
    }
  }

  lemma {:induction false} NibblesMonotone(m: nat, n: nat)
    requires m <= n
    ensures Nibbles(m) <= Nibbles(n)
  {
    if m > 0 {
      NibblesMonotone(m / 16, n / 16);
    }
  }

  lemma EncodeLength(n: nat)
    requires n < WRAP32
    ensures |Encode(n)| == 1 + (Nibbles(n / 16) + 1) / 2 && 1 <= |Encode(n)| <= 5
  {
    NibblesBound(n / 16, 7);
    PairsLength(n / 16);
  }

  lemma EncodeMonotone(m: nat, n: nat)
    requires m <= n < WRAP32
    ensures |Encode(m)| <= |Encode(n)|
  {
    EncodeLength(m);
    EncodeLength(n);
    NibblesMonotone(m / 16, n / 16);
  }

  /** Whatever bytes decode to a number, encode_int would not have used more of them. */
  lemma EncodeShortest(bs: seq<byte>)
    requires Decode(bs).Some?
    ensures var d := Decode(bs).value; d.number < WRAP32 && |Encode(d.number)| <= d.len
  {
    var c := bs[0] / 16;
    var v := Value(bs[1..], c);
    ValueBound(bs[1..], c);
    PowBound(c);
    var n := bs[0] % 16 + 16 * v;
    assert n / 16 == v;
    NibblesBound(v, c);
    EncodeLength(n);
  }

  lemma PowBound(c: nat)
    requires c <= 7
    ensures Pow16(c) <= 0x1000_0000
  {
    assert Pow16(7) == 16 * 16 * 16 * 16 * Pow16(3);
    PowMonotone(c, 7);
  }

  lemma {:induction false} PowMonotone(a: nat, b: nat)
    requires a <= b
    ensures Pow16(a) <= Pow16(b)
  {
    if a > 0 {
      PowMonotone(a - 1, b - 1);
    } else if b > 0 {
      PowMonotone(0, b - 1);
    }
  }

  // ---- the nibble loops ------------------------------------------------------------------------

  /** What Pairs makes of a number below which one nibble is already in place. */
  function PairsAfter(high: nat, m: nat): seq<byte>
    requires high < 16
  {
    [high * 16 + m % 16] + Pairs(m / 16)
  }

  lemma PairsHalves(m: nat)
    requires m > 0
    ensures Pairs(m) == PairsAfter(m % 16, m / 16)
  {
    assert (m / 16) / 16 == m / 256;
  }

  /** How far encode_int's loop has come: the bytes written and the number left make up its result. */
  predicate Encoding(n: nat, data: seq<byte>, off: nat, number: nat) {
    && |data| == 5 && 1 <= off && off / 2 <= 5 && off - 1 + Nibbles(number) == Nibbles(n) <= 8
    && (off == 1 ==> number == n && data[0] == 0)
    && (off > 1 ==> data[0] == n % 16)
    && (off > 1 && off % 2 == 0 ==> data[1..off / 2] + Pairs(number) == Pairs(n / 16))
    && (off > 1 && off % 2 == 1 ==> off / 2 < 5 && HalfDone(n, data, off / 2, number))
  }

  predicate HalfDone(n: nat, data: seq<byte>, k: nat, number: nat) {
    && 1 <= k < |data| && data[k] % 16 == 0
    && data[1..k] + PairsAfter(data[k] / 16, number) == Pairs(n / 16)
  }

  /** One round of the loop: a nibble goes into the low or the high half of its byte. */
  function PutNibble(data: seq<byte>, off: nat, nibble: nat): seq<byte>
    requires off / 2 < |data| && nibble < 16
  {
    var b := data[off / 2];
    data[off / 2 := if off % 2 == 1 then (b / 16) * 16 + nibble else b % 16 + nibble * 16]
  }

  lemma EncodingFirst(n: nat, data: seq<byte>, number: nat)
    requires Encoding(n, data, 1, number) && number > 0
    ensures Encoding(n, PutNibble(data, 1, number % 16), 2, number / 16)
  {
    hide Pairs;
    assert PutNibble(data, 1, number % 16)[1..1] == [];
    assert [] + Pairs(n / 16) == Pairs(n / 16);
  }

  lemma EncodingLow(n: nat, data: seq<byte>, off: nat, number: nat)
    requires Encoding(n, data, off, number) && number > 0 && off % 2 == 1 && off > 1
    ensures Encoding(n, PutNibble(data, off, number % 16), off + 1, number / 16)
  {
    hide Pairs;
    var next := PutNibble(data, off, number % 16);
    var k := off / 2;
    var h := data[k] / 16;
    assert (off + 1) / 2 == k + 1;
    assert next[k] == h * 16 + number % 16;
    assert next[1..k + 1] == data[1..k] + [h * 16 + number % 16];
    assert next[1..k + 1] + Pairs(number / 16) == data[1..k] + PairsAfter(h, number);
  }

  lemma EncodingHigh(n: nat, data: seq<byte>, off: nat, number: nat)
    requires Encoding(n, data, off, number) && number > 0 && off % 2 == 0
    requires off / 2 < 5 && data[off / 2] == 0
    ensures Encoding(n, PutNibble(data, off, number % 16), off + 1, number / 16)
  {
    var next := PutNibble(data, off, number % 16);
    PairsHalves(number);
    hide Pairs, PairsAfter;
    var k := off / 2;
    var v := number % 16;
    HighHalf(v);
    assert (off + 1) / 2 == k;
    assert next[k] == v * 16;
    assert next[1..k] == data[1..k];
  }

  lemma HighHalf(v: nat)
    requires v < 16
    ensures (v * 16) / 16 == v && (v * 16) % 16 == 0
  {
  }

  /** When the number is used up the written bytes are the coding, but for the nibble count. */
  lemma EncodingDone(n: nat, data: seq<byte>, off: nat)
    requires Encoding(n, data, off, 0) && n < WRAP32
    ensures off <= 9 && data[0] < 16 && data[0] == n % 16
    ensures Nibbles(n / 16) == if off > 2 then off - 2 else 0
    ensures data[1..(off + 1) / 2] == Pairs(n / 16)
  {
    hide HalfDone, Nibbles, Pairs;
    NibblesRest(n);
    PairsNone();
    var k := off / 2;
    if off == 1 {
      assert data[1..1] == [];
    } else if off % 2 == 0 {
      assert data[1..k] + [] == data[1..k];
    } else {
      HalfLast(n, data, k);
    }
  }

  lemma NibblesRest(n: nat)
    ensures Nibbles(0) == 0 && Nibbles(n / 16) == if Nibbles(n) > 1 then Nibbles(n) - 1 else 0
    ensures Nibbles(n) <= 1 ==> n < 16
  {
  }

  lemma PairsNone()
    ensures Pairs(0) == []
  {
  }

  lemma HalfLast(n: nat, data: seq<byte>, k: nat)
    requires HalfDone(n, data, k, 0)
    ensures 1 <= k < |data| && data[1..k + 1] == Pairs(n / 16)
  {
    PairsNone();
    hide Pairs;
    assert PairsAfter(data[k] / 16, 0) == [data[k]];
    assert data[1..k + 1] == data[1..k] + [data[k]];
  }

  lemma EncodingStep(n: nat, data: seq<byte>, off: nat, number: nat)
    requires Encoding(n, data, off, number) && number > 0
    requires off / 2 < 5 && (off % 2 == 0 ==> data[off / 2] == 0)
    ensures Encoding(n, PutNibble(data, off, number % 16), off + 1, number / 16)
  {
    hide Encoding, PutNibble;
    if off == 1 {
      EncodingFirst(n, data, number);
    } else if off % 2 == 1 {
      EncodingLow(n, data, off, number);
    } else {
      EncodingHigh(n, data, off, number);
    }
  }

  predicate ZeroFrom(data: seq<byte>, k: nat) {
    forall j :: k <= j < |data| ==> data[j] == 0
  }

  lemma RoomForNibble(n: nat, data: seq<byte>, off: nat, number: nat)
    requires Encoding(n, data, off, number) && number > 0
    ensures off <= 8 && |data| == 5
  {
  }

  /** The two masks and shifts that put one nibble in its place. */
  method PlaceNibble(data: array<byte>, off: nat, nibble: nat)
    requires data.Length == 5 && off / 2 < 5 && nibble < 16
    modifies data
    ensures data[..] == PutNibble(old(data[..]), off, nibble)
  {
    var b := data[off / 2];
    if off % 2 == 1 {
      data[off / 2] := (b / 16) * 16 + nibble;
    } else {
      data[off / 2] := b % 16 + nibble * 16;
    }
    assert data[..] == PutNibble(old(data[..]), off, nibble);
  }

  /** encode_int: the bytes it adds to the buffer. */
  method EncodeInt(n: nat) returns (added: seq<byte>)
    requires n < WRAP32
    ensures added == Encode(n)
  {
    hide Encoding, PutNibble, Nibbles, Pairs;
    var off, number := 1, n;
    var data := new byte[5](_ => 0);
    StartEncoding(n, data[..]);
    while number > 0
      invariant 1 <= off && Encoding(n, data[..], off, number)
      invariant data.Length == 5 && ZeroFrom(data[..], (off + 1) / 2)
    {
      RoomForNibble(n, data[..], off, number);
      EncodingStep(n, data[..], off, number);
      KeepsZero(data[..], off, number % 16);
      PlaceNibble(data, off, number % 16);
      number := number / 16;
      off := off + 1;
    }
    EncodingDone(n, data[..], off);
    NibblesBound(n / 16, 7);
    var nibbles := if off > 2 then off - 2 else 0;
    data[0] := data[0] % 16 + nibbles * 16;
    assert data[..(off + 1) / 2] == [data[0]] + data[1..(off + 1) / 2];
    added := data[..(off + 1) / 2];
  }

  lemma StartEncoding(n: nat, data: seq<byte>)
    requires n < WRAP32 && |data| == 5 && ZeroFrom(data, 0)
    ensures Encoding(n, data, 1, n)
  {
    NibblesBound(n, 8);
  }

  lemma KeepsZero(data: seq<byte>, off: nat, nibble: nat)
    requires |data| == 5 && off / 2 < 5 && nibble < 16 && ZeroFrom(data, (off + 1) / 2)
    ensures ZeroFrom(PutNibble(data, off, nibble), (off + 2) / 2)
  {
    assert (off + 2) / 2 == off / 2 + 1;
  }

  /** The nibble at place p: odd places are low halves. */
  function NibbleAt(bs: seq<byte>, p: nat): nat
    requires p / 2 < |bs|
  {
    if p % 2 == 1 then bs[p / 2] % 16 else bs[p / 2] / 16
  }

  /** The number in the nibbles from place p to place q, as decode_int's loop gathers it. */
  function ValueFrom(bs: seq<byte>, p: nat, q: nat): nat
    requires q / 2 < |bs|
    decreases q + 1 - p
  {
    if p > q then 0 else NibbleAt(bs, p) + 16 * ValueFrom(bs, p + 1, q)
  }

  lemma {:induction false} ValueFromValue(bs: seq<byte>, k: nat, q: nat)
    requires 2 * k <= q + 1 && q / 2 < |bs|
    ensures ValueFrom(bs, 2 * k, q) == Value(bs[k..], q + 1 - 2 * k)
    decreases q + 1 - 2 * k
  {
    if q >= 2 * k {
      assert bs[k..][0] == bs[k];
      assert (2 * k + 1) / 2 == k && (2 * k) / 2 == k;
      if q > 2 * k {
        assert bs[k..][1..] == bs[k + 1..];
        ValueFromValue(bs, k + 1, q);
      }
    }
  }

  lemma {:induction false} ValueFromBound(bs: seq<byte>, p: nat, q: nat)
    requires q / 2 < |bs| && p <= q + 1
    ensures ValueFrom(bs, p, q) < Pow16(q + 1 - p)
    decreases q + 1 - p
  {
    if p <= q {
      ValueFromBound(bs, p + 1, q);
    }
  }

  /** decode_int_internal: -1 or how many bytes the number took, and the number. */
  method DecodeInt(data: seq<byte>) returns (len: int, number: nat)
    ensures Decode(data).None? <==> len == -1
    ensures Decode(data).Some? ==> len > 0 && Decode(data).value == Decoded(number, len)
  {
    number := 0;
    if data == [] {
      return -1, 0;
    }
    var nibbles := data[0] / 16 + 1;
    if nibbles > 8 || nibbles / 2 > |data| - 1 {
      return -1, 0;
    }
    hide Value, ValueFrom, Pow16;
    var off := nibbles;
    assert number == ValueFrom(data, off + 1, nibbles) by {
      EmptyValue(data, nibbles);
    }
    while off > 0
      invariant 0 <= off <= nibbles && number == ValueFrom(data, off + 1, nibbles)
    {
      NumberFits(data, off, nibbles);
      number := (number * 16) % WRAP32 + NibbleAt(data, off);
      off := off - 1;
    }
    WholeValue(data, nibbles);
    len := nibbles / 2 + 1;
  }

  lemma EmptyValue(data: seq<byte>, q: nat)
    requires q / 2 < |data|
    ensures ValueFrom(data, q + 1, q) == 0
  {
  }

  lemma NumberFits(data: seq<byte>, off: nat, q: nat)
    requires 1 <= off <= q <= 8 && q / 2 < |data|
    ensures ValueFrom(data, off + 1, q) * 16 < WRAP32
    ensures ValueFrom(data, off, q) == ValueFrom(data, off + 1, q) * 16 + NibbleAt(data, off)
  {
    ValueFromBound(data, off + 1, q);
    PowBound(q - off);
  }

  lemma WholeValue(data: seq<byte>, nibbles: nat)
    requires 1 <= nibbles <= 8 && nibbles / 2 < |data|
    ensures ValueFrom(data, 1, nibbles) == data[0] % 16 + 16 * Value(data[1..], nibbles - 1)
  {
    ValueFromValue(data, 1, nibbles);
  }

  // ---- tagged data --------------------------------------------------------------------------------

  /** evtag_marshal: the length parameter has 16 bits. */
  function Marshal(tag: byte, data: seq<byte>): seq<byte> {
    var len := |data| % WRAP16;
    [tag] + Encode(len) + data[..len]
  }

  /** evtag_marshal_int */
  function MarshalInt(tag: byte, n: nat): seq<byte>
    requires n < WRAP32
  {
    EncodeLength(n);
    [tag] + Encode(|Encode(n)|) + Encode(n)
  }

  /** What evtag_unmarshal takes off a buffer. */
  datatype Tagged = Tagged(tag: byte, payload: seq<byte>, rest: seq<byte>)

  /** evtag_unmarshal: the length is cut to 16 bits. */
  function Unmarshal(src: seq<byte>): (r: Option<Tagged>)
    ensures r.Some? ==> |r.value.payload| < WRAP16 && |r.value.payload| + |r.value.rest| + 2 <= |src|
  {
    if src == [] then None
    else
      var d := Decode(src[1..]);
      if d.None? then None
      else
        var body := src[1 + d.value.len..];
        var len := d.value.number % WRAP16;
        if |body| < len then None
        else Some(Tagged(src[0], body[..len], body[len..]))
  }

  /** evtag_peek */
  function Peek(src: seq<byte>): Option<byte> {
    if |src| < 2 then None else Some(src[0])
  }

  /** evtag_payload_length */
  function PayloadLength(src: seq<byte>): Option<nat> {
    if |src| < 2 then None
    else
      var d := Decode(src[1..]);
      if d.None? then None else Some(d.value.number)
  }

  /** evtag_unmarshal_int: bytes of the payload after the number are dropped. */
  function UnmarshalInt(src: seq<byte>, tag: byte): Option<(nat, seq<byte>)> {
    var t := Unmarshal(src);
    if t.None? || t.value.tag != tag then None
    else
      var d := Decode(t.value.payload);
      if d.None? then None else Some((d.value.number, t.value.rest))
  }

  /** evtag_unmarshal_fixed */
  function UnmarshalFixed(src: seq<byte>, tag: byte, len: nat): Option<(seq<byte>, seq<byte>)> {
    var t := Unmarshal(src);
    if t.None? || t.value.tag != tag || |t.value.payload| != len then None
    else Some((t.value.payload, t.value.rest))
  }

  /** A C string: what comes before the first zero byte. */
  function CString(bs: seq<byte>): (s: seq<byte>)
    ensures |s| <= |bs| && 0 !in s
  {
    if bs == [] || bs[0] == 0 then [] else [bs[0]] + CString(bs[1..])
  }

  lemma {:induction false} CStringWhole(bs: seq<byte>)
    requires 0 !in bs
    ensures CString(bs) == bs
  {
    if bs != [] {
      CStringWhole(bs[1..]);
    }
  }

  /** evtag_unmarshal_string */
  function UnmarshalString(src: seq<byte>, tag: byte): Option<(seq<byte>, seq<byte>)> {
    var t := Unmarshal(src);
    if t.None? || t.value.tag != tag then None else Some((CString(t.value.payload), t.value.rest))
  }

  /** evtag_unmarshal undoes evtag_marshal for data of at most 65535 bytes. */
  lemma UnmarshalMarshal(tag: byte, data: seq<byte>, rest: seq<byte>)
    requires |data| < WRAP16
    ensures Unmarshal(Marshal(tag, data) + rest) == Some(Tagged(tag, data, rest))
    ensures PayloadLength(Marshal(tag, data) + rest) == Some(|data|)
    ensures Peek(Marshal(tag, data) + rest) == Some(tag)
  {
    hide Decode, Encode;
    EncodeLength(|data|);
    DecodeEncode(|data|, data + rest);
    var head := Encode(|data|);
    MarshalWhole(tag, data);
    hide Marshal;
    var src := [tag] + (head + (data + rest));
    assert Marshal(tag, data) + rest == src;
    assert src[1..] == head + (data + rest);
    assert src[1 + |head|..] == data + rest;
  }

  lemma MarshalWhole(tag: byte, data: seq<byte>)
    requires |data| < WRAP16
    ensures Marshal(tag, data) == [tag] + Encode(|data|) + data
  {
    hide Encode;
    assert data[..|data|] == data;
  }

  lemma MarshalIntIs(tag: byte, n: nat)
    requires n < WRAP32 && |Encode(n)| < WRAP16
    ensures MarshalInt(tag, n) == Marshal(tag, Encode(n))
  {
    hide Encode;
    assert Encode(n)[..|Encode(n)|] == Encode(n);
  }

  lemma UnmarshalMarshalInt(tag: byte, n: nat, rest: seq<byte>)
    requires n < WRAP32
    ensures UnmarshalInt(MarshalInt(tag, n) + rest, tag) == Some((n, rest))
    ensures Peek(MarshalInt(tag, n) + rest) == Some(tag)
  {
    hide Encode, Decode, Marshal, Unmarshal, PayloadLength, Peek;
    EncodeLength(n);
    MarshalIntIs(tag, n);
    UnmarshalMarshal(tag, Encode(n), rest);
    DecodeEncode(n, []);
    assert Encode(n) + [] == Encode(n);
  }

  /** evtag_marshal cuts longer data, and keeps the framing of what follows. */
  lemma MarshalCuts(tag: byte, data: seq<byte>)
    ensures Marshal(tag, data) == Marshal(tag, data[..|data| % WRAP16])
  {
    hide Encode;
    var cut := data[..|data| % WRAP16];
    MarshalWhole(tag, cut);
  }

  /** A tag with a payload takes no fewer bytes than evtag_marshal would use for as much. */
  lemma UnmarshalSize(src: seq<byte>, size: nat)
    requires Unmarshal(src).Some? && size <= |Unmarshal(src).value.payload|
    ensures 1 + |Encode(size)| + size <= |src| - |Unmarshal(src).value.rest|
  {
    var d := Decode(src[1..]).value;
    EncodeShortest(src[1..]);
    EncodeMonotone(size, d.number);
  }

  // ---- skipping and timevals --------------------------------------------------------------------

  /** evtag_peek_length: the sum is kept in 32 bits. */
  function PeekLength(src: seq<byte>): Option<nat> {
    if |src| < 2 then None
    else
      var d := Decode(src[1..]);
      if d.None? then None else Some((d.value.number + d.value.len + 1) % WRAP32)
  }

  /** evbuffer_drain of at least all there is empties the buffer. */
  function Drained(src: seq<byte>, len: nat): seq<byte> {
    if len >= |src| then [] else src[len..]
  }

  /** evtag_consume: whether it succeeds, and the buffer it leaves. */
  function Consume(src: seq<byte>): (bool, seq<byte>) {
    var body := Drained(src, 1);
    var d := Decode(body);
    if d.None? then (false, body) else (true, Drained(body[d.value.len..], d.value.number))
  }

  /** evtag_consume skips exactly what evtag_peek_length announces, which is one marshalled item. */
  lemma ConsumeMarshal(tag: byte, data: seq<byte>, rest: seq<byte>)
    requires |data| < WRAP16
    ensures PeekLength(Marshal(tag, data) + rest) == Some(|Marshal(tag, data)|)
    ensures Consume(Marshal(tag, data) + rest) == (true, rest)
  {
    hide Decode, Encode;
    var src := Marshal(tag, data) + rest;
    EncodeLength(|data|);
    assert data[..|data|] == data;
    assert src[1..] == Encode(|data|) + (data + rest);
    DecodeEncode(|data|, data + rest);
    assert (Encode(|data|) + (data + rest))[|Encode(|data|)|..] == data + rest;
    assert Drained(src, 1) == src[1..];
    assert Drained(data + rest, |data|) == rest;
  }

  /** evtag_marshal_timeval, with the two fields cut to 32 bits. */
  function MarshalTimeval(tag: byte, sec: nat, usec: nat): seq<byte> {
    Marshal(tag, Encode(sec % WRAP32) + Encode(usec % WRAP32))
  }

  /** evtag_unmarshal_timeval */
  function UnmarshalTimeval(src: seq<byte>, tag: byte): Option<(nat, nat, seq<byte>)> {
    var t := Unmarshal(src);
    if t.None? || t.value.tag != tag then None
    else
      var s := Decode(t.value.payload);
      if s.None? then None
      else
        var u := Decode(t.value.payload[s.value.len..]);
        if u.None? then None else Some((s.value.number, u.value.number, t.value.rest))
  }

  /** A timeval comes back exactly when both its fields fit in 32 bits. */
  lemma TimevalRoundTrip(tag: byte, sec: nat, usec: nat, rest: seq<byte>)
    ensures UnmarshalTimeval(MarshalTimeval(tag, sec, usec) + rest, tag) == Some((sec, usec, rest)) <==>
            sec < WRAP32 && usec < WRAP32
  {
    var s, u := sec % WRAP32, usec % WRAP32;
    var payload := Encode(s) + Encode(u);
    TimevalLength(s, u);
    UnmarshalMarshal(tag, payload, rest);
    hide Decode, Encode, Unmarshal, Marshal, PayloadLength, Peek;
    TimevalRead(Marshal(tag, payload) + rest, tag, s, u, rest);
    Wraps(sec);
    Wraps(usec);
  }

  lemma Wraps(n: nat)
    ensures n % WRAP32 == n <==> n < WRAP32
  {
  }

  lemma TimevalRead(src: seq<byte>, tag: byte, s: nat, u: nat, rest: seq<byte>)
    requires s < WRAP32 && u < WRAP32
    requires Unmarshal(src) == Some(Tagged(tag, Encode(s) + Encode(u), rest))
    ensures UnmarshalTimeval(src, tag) == Some((s, u, rest))
  {
    TimevalPayload(s, u);
    hide Decode, Encode, Unmarshal;
  }

  lemma TimevalLength(s: nat, u: nat)
    requires s < WRAP32 && u < WRAP32
    ensures |Encode(s) + Encode(u)| < WRAP16
  {
    EncodeLength(s);
    EncodeLength(u);
  }

  lemma TimevalPayload(s: nat, u: nat)
    requires s < WRAP32 && u < WRAP32
    ensures var payload := Encode(s) + Encode(u);
            && Decode(payload) == Some(Decoded(s, |Encode(s)|))
            && Decode(payload[|Encode(s)|..]) == Some(Decoded(u, |Encode(u)|))
  {
    hide Decode, Encode;
    DecodeEncode(s, Encode(u));
    DecodeEncode(u, []);
    assert Encode(u) + [] == Encode(u);
    assert (Encode(s) + Encode(u))[|Encode(s)|..] == Encode(u);
  }
}
