/** The coding of integers nibble by nibble. */
module EvTagNibbles {
  import opened Seqs
  import opened EvTag

  /** A number without its i lowest hexadecimal digits. */
  function Shifted(n: nat, i: nat): nat {
    if i == 0 then n else Shifted(n / 16, i - 1)
  }

  function HexDigit(n: nat, i: nat): nat {
    Shifted(n, i) % 16
  }

  /** Nibble 0 is the low half of the first byte; then each byte holds two, the first in its high half. */
  function NibbleOf(bs: seq<byte>, i: nat): nat
    requires (i + 1) / 2 < |bs|
  {
    var b := bs[(i + 1) / 2];
    if i % 2 == 0 then b % 16 else b / 16
  }

  /** Nibble i of what follows the first byte. */
  function PairNibble(bs: seq<byte>, i: nat): nat
    requires i / 2 < |bs|
  {
    if i % 2 == 0 then bs[i / 2] / 16 else bs[i / 2] % 16
  }

  lemma {:induction false} PairsDigits(m: nat, i: nat)
    requires i / 2 < |Pairs(m)|
    ensures PairNibble(Pairs(m), i) == HexDigit(m, i)
  {
    TwoNibbles(m);
    assert (m / 16) / 16 == m / 256;
    if i >= 2 {
      PairsDigits(m / 256, i - 2);
      assert Pairs(m)[1..] == Pairs(m / 256);
      assert Pairs(m)[i / 2] == Pairs(m / 256)[(i - 2) / 2];
      ShiftedTwo(m, i);
    } else if i == 1 {
      assert Shifted(m, 1) == Shifted(m / 16, 0);
    }
  }

  lemma ShiftedTwo(m: nat, i: nat)
    requires i >= 2
    ensures Shifted(m, i) == Shifted(m / 256, i - 2)
  {
    assert Shifted(m, i) == Shifted(m / 16, i - 1) == Shifted((m / 16) / 16, i - 2);
    assert (m / 16) / 16 == m / 256;
  }

  lemma {:induction false} NibblesShift(m: nat, k: nat)
    ensures Shifted(m, k) == 0 <==> Nibbles(m) <= k
  {
    if k > 0 {
      NibblesShift(m / 16, k - 1);
    }
  }

  /** The high half of the first byte is the number k of nibbles after the first; nibble i is hexadecimal digit i
      of n, lowest first; there are no others but a zero that fills the last byte, and the last one is not zero. */
  predicate Codes(e: seq<byte>, n: nat) {
    && e != []
    && var k := e[0] / 16;
    && |e| == 1 + (k + 1) / 2 && k <= 7 && Shifted(n, k + 1) == 0
    && (forall i :: 0 <= i <= k ==> NibbleOf(e, i) == HexDigit(n, i))
    && (k > 0 ==> NibbleOf(e, k) != 0)
    && (k % 2 == 1 ==> NibbleOf(e, k + 1) == 0)
  }

  /** encode_int */
  lemma EncodeNibbles(n: nat)
    requires n < WRAP32
    ensures Codes(Encode(n), n)
  {
    hide Encode, Codes, HexDigit, Shifted, NibbleOf, Nibbles, Pairs;
    EncodeLength(n);
    EncodedShape(n);
    EncodedDigits(n);
    CodesFrom(Encode(n), n);
  }

  lemma CodesFrom(e: seq<byte>, n: nat)
    requires e != [] && |e| == 1 + (e[0] / 16 + 1) / 2 && e[0] / 16 <= 7
    requires forall i :: 0 <= i < |e| * 2 - 1 ==> NibbleOf(e, i) == HexDigit(n, i)
    requires var k := e[0] / 16;
             Shifted(n, k + 1) == 0 && (k > 0 ==> HexDigit(n, k) != 0) && HexDigit(n, k + 1) == 0
    ensures Codes(e, n)
  {
    hide HexDigit, Shifted, NibbleOf;
    Halves(e[0] / 16, |e|);
  }

  lemma EncodedShape(n: nat)
    requires n < WRAP32
    ensures var e, k := Encode(n), Encode(n)[0] / 16;
            && |e| == 1 + (k + 1) / 2 && k <= 7 && Shifted(n, k + 1) == 0
            && (k > 0 ==> HexDigit(n, k) != 0) && HexDigit(n, k + 1) == 0
  {
    hide Encode, Pairs, Nibbles, HexDigit, Shifted;
    EncodeParts(n);
    var k := Nibbles(n / 16);
    NibblesShift(n / 16, k);
    ShiftedUp(n, k);
    ShiftedZero(n, k + 1);
    if k > 0 {
      NibblesShift(n / 16, k - 1);
      LastDigit(n, k);
    }
  }

  lemma Halves(k: nat, length: nat)
    requires length == 1 + (k + 1) / 2
    ensures k < length * 2 - 1 && (k % 2 == 1 ==> k + 1 < length * 2 - 1)
  {
  }

  lemma ShiftedUp(n: nat, k: nat)
    ensures Shifted(n, k + 1) == Shifted(n / 16, k)
  {
  }

  lemma EncodeParts(n: nat)
    requires n < WRAP32
    ensures var e, k := Encode(n), Nibbles(n / 16);
            && |e| == 1 + (k + 1) / 2 && k <= 7 && e[0] / 16 == k && e[0] % 16 == n % 16
            && e[1..] == Pairs(n / 16)
  {
    hide Pairs, Nibbles;
    NibblesBound(n / 16, 7);
    PairsLength(n / 16);
    HeadNibbles(Nibbles(n / 16), n);
  }

  lemma EncodedDigits(n: nat)
    requires n < WRAP32
    ensures forall i :: 0 <= i < |Encode(n)| * 2 - 1 ==> NibbleOf(Encode(n), i) == HexDigit(n, i)
  {
    hide Encode, Pairs, Nibbles, PairNibble, HexDigit, NibbleOf;
    var e := Encode(n);
    EncodeParts(n);
    DigitZero(n);
    FirstNibble(e);
    forall i | 0 <= i < |e| * 2 - 1 ensures NibbleOf(e, i) == HexDigit(n, i) {
      if i > 0 {
        PairsDigits(n / 16, i - 1);
        NibbleAfter(e, i);
        DigitUp(n, i);
      }
    }
  }

  lemma NibbleAfter(e: seq<byte>, i: nat)
    requires 0 < i && (i + 1) / 2 < |e|
    ensures NibbleOf(e, i) == PairNibble(e[1..], i - 1)
  {
  }

  lemma DigitUp(n: nat, i: nat)
    requires i > 0
    ensures HexDigit(n, i) == HexDigit(n / 16, i - 1)
  {
  }

  lemma DigitZero(n: nat)
    ensures HexDigit(n, 0) == n % 16
  {
  }

  lemma ShiftedZero(n: nat, k: nat)
    requires Shifted(n, k) == 0
    ensures HexDigit(n, k) == 0
  {
  }

  lemma {:induction false} ShiftedNext(n: nat, k: nat)
    ensures Shifted(n, k + 1) == Shifted(n, k) / 16
  {
    if k > 0 {
      ShiftedNext(n / 16, k - 1);
    }
  }

  lemma LastDigit(n: nat, k: nat)
    requires k > 0 && Shifted(n, k + 1) == 0 && Shifted(n / 16, k - 1) != 0
    ensures HexDigit(n, k) != 0
  {
    ShiftedNext(n, k);
  }

  /** decode_int: it fails just for an empty buffer, for more than eight nibbles and for a buffer that is too
      short; otherwise digit i of the number is nibble i, and there are no others. */
  lemma DecodeNibbles(bs: seq<byte>)
    ensures var k := if bs == [] then 0 else bs[0] / 16;
            && (Decode(bs) == None <==> bs == [] || k > 7 || |bs| < 1 + (k + 1) / 2)
            && (Decode(bs).Some? ==>
                  var d := Decode(bs).value;
                  && d.len == 1 + (k + 1) / 2 <= |bs| && Shifted(d.number, k + 1) == 0
                  && forall i :: 0 <= i <= k ==> HexDigit(d.number, i) == NibbleOf(bs, i))
  {
    hide Value, HexDigit, NibbleOf, PairNibble;
    if Decode(bs).Some? {
      var k, n := bs[0] / 16, Decode(bs).value.number;
      var v := Value(bs[1..], k);
      assert n == bs[0] % 16 + 16 * v;
      DivideOut(bs[0] % 16, v);
      assert Shifted(n, k + 1) == Shifted(v, k);
      ValueShift(bs[1..], k);
      forall i | 0 <= i <= k ensures HexDigit(n, i) == NibbleOf(bs, i) {
        if i == 0 {
          DigitZero(n);
          FirstNibble(bs);
        } else {
          DigitUp(n, i);
          ValueDigits(bs[1..], k, i - 1);
          NibbleAfter(bs, i);
        }
      }
    }
  }

  lemma FirstNibble(bs: seq<byte>)
    requires bs != []
    ensures NibbleOf(bs, 0) == bs[0] % 16
  {
  }

  lemma DivideOut(a: nat, v: nat)
    requires a < 16
    ensures (a + 16 * v) / 16 == v && (a + 16 * v) % 16 == a
  {
  }

  lemma {:induction false} ValueShift(bs: seq<byte>, c: nat)
    requires 2 * |bs| >= c
    ensures Shifted(Value(bs, c), c) == 0
    decreases c
  {
    if c == 1 {
      assert Shifted(bs[0] / 16, 1) == Shifted((bs[0] / 16) / 16, 0);
    } else if c >= 2 {
      ValueShift(bs[1..], c - 2);
      ValueParts(bs, c);
      ShiftedTwo(Value(bs, c), c);
    }
  }

  lemma ValueParts(bs: seq<byte>, c: nat)
    requires c >= 2 && 2 * |bs| >= c
    ensures var v := Value(bs, c);
            v % 16 == bs[0] / 16 && (v / 16) % 16 == bs[0] % 16 && v / 256 == Value(bs[1..], c - 2)
  {
    var w := Value(bs[1..], c - 2);
    assert Value(bs, c) == bs[0] / 16 + 16 * (bs[0] % 16 + 16 * w);
    hide Value;
    DivideOut(bs[0] / 16, bs[0] % 16 + 16 * w);
    DivideOut(bs[0] % 16, w);
  }

  lemma {:induction false} ValueDigits(bs: seq<byte>, c: nat, i: nat)
    requires 2 * |bs| >= c && i < c
    ensures HexDigit(Value(bs, c), i) == PairNibble(bs, i)
    decreases c
  {
    if c == 1 {
      assert Value(bs, 1) == bs[0] / 16;
    } else {
      ValueParts(bs, c);
      hide Value;
      if i >= 2 {
        ValueDigits(bs[1..], c - 2, i - 2);
        ShiftedTwo(Value(bs, c), i);
        assert bs[1..][(i - 2) / 2] == bs[i / 2];
      } else if i == 1 {
        assert Shifted(Value(bs, c), 1) == Shifted(Value(bs, c) / 16, 0);
      }
    }
  }
}
